/** The question screen of `components/quiz/steps/question-step.tsx`: the
    position in the question bank, the answers given so far, and the handlers
    that record an answer, move on, and go back. The screen is given the bank
    it walks through (the application passes `personalityQuestions`). */
module QuestionStep {
  import opened Wrappers
  import opened QuizData

  /** `responses.filter(r => r.questionId !== questionId)`. */
  function OtherQuestions(responses: seq<QuizResponse>, questionId: int): (kept: seq<QuizResponse>)
    ensures forall r :: r in kept <==> r in responses && r.questionId != questionId
    ensures |kept| <= |responses|
    decreases |responses|
  {
    if responses == [] then []
    else (if responses[0].questionId == questionId then [] else [responses[0]]) + OtherQuestions(responses[1..], questionId)
  }

  /** `newResponses` of `handleOptionSelect`: the answers to the other
      questions, in their order, followed by the new answer. */
  function Upsert(responses: seq<QuizResponse>, answer: QuizResponse): (updated: seq<QuizResponse>)
    ensures |updated| >= 1 && updated[|updated| - 1] == answer
    ensures forall k :: 0 <= k < |updated| - 1 ==> updated[k].questionId != answer.questionId
    ensures forall r :: r in updated <==> r == answer || (r in responses && r.questionId != answer.questionId)
  {
    OtherQuestions(responses, answer.questionId) + [answer]
  }

  /** `responses.find(r => r.questionId === questionId)`: the first answer to
      that question, if there is one. */
  function Find(responses: seq<QuizResponse>, questionId: int): (found: Option<QuizResponse>)
    ensures found.Some? <==> exists r :: r in responses && r.questionId == questionId
    ensures found.Some? ==> found.value in responses && found.value.questionId == questionId
    ensures found.Some? ==>
              exists k :: 0 <= k < |responses| && responses[k] == found.value &&
                          forall j :: 0 <= j < k ==> responses[j].questionId != questionId
    decreases |responses|
  {
    if responses == [] then None
    else if responses[0].questionId == questionId then Some(responses[0])
    else
      var tail := responses[1..];
      var found := Find(tail, questionId);
      assert forall k :: 0 <= k < |tail| ==> tail[k] == responses[k + 1];
      found
  }

  /** At most one answer per question. */
  predicate UniqueIds(responses: seq<QuizResponse>) {
    forall i, j :: 0 <= i < j < |responses| ==> responses[i].questionId != responses[j].questionId
  }

  /** Answering a question keeps one answer per question. */
  lemma UpsertKeepsUnique(responses: seq<QuizResponse>, answer: QuizResponse)
    requires UniqueIds(responses)
    ensures UniqueIds(Upsert(responses, answer))
  {
    var kept := OtherQuestions(responses, answer.questionId);
    OtherQuestionsKeepsUnique(responses, answer.questionId);
    var updated := kept + [answer];
    forall i, j | 0 <= i < j < |updated| ensures updated[i].questionId != updated[j].questionId {
      if j < |kept| {
        assert updated[i] == kept[i] && updated[j] == kept[j];
      } else {
        assert updated[i] == kept[i];
        assert kept[i] in kept;
      }
    }
  }

  lemma {:induction false} OtherQuestionsKeepsUnique(responses: seq<QuizResponse>, questionId: int)
    requires UniqueIds(responses)
    ensures UniqueIds(OtherQuestions(responses, questionId))
    decreases |responses|
  {
    if responses != [] {
      var tail := responses[1..];
      assert UniqueIds(tail) by {
        forall i, j | 0 <= i < j < |tail| ensures tail[i].questionId != tail[j].questionId {
          assert tail[i] == responses[i + 1] && tail[j] == responses[j + 1];
        }
      }
      OtherQuestionsKeepsUnique(tail, questionId);
      var rest := OtherQuestions(tail, questionId);
      if responses[0].questionId != questionId {
        var out := [responses[0]] + rest;
        forall i, j | 0 <= i < j < |out| ensures out[i].questionId != out[j].questionId {
          if i > 0 {
            assert out[i] == rest[i - 1] && out[j] == rest[j - 1];
          } else {
            assert out[j] == rest[j - 1];
            assert rest[j - 1] in tail;
            var m :| 0 <= m < |tail| && tail[m] == rest[j - 1];
            assert tail[m] == responses[m + 1];
          }
        }
      }
    }
  }

  /** Answering the same question twice keeps only the second answer, and
      the answers to other questions stay where they were. */
  lemma {:induction false} UpsertTwice(responses: seq<QuizResponse>, first: QuizResponse, second: QuizResponse)
    requires first.questionId == second.questionId
    ensures Upsert(Upsert(responses, first), second) == Upsert(responses, second)
  {
    var id := first.questionId;
    var kept := OtherQuestions(responses, id);
    calc {
      Upsert(Upsert(responses, first), second);
      OtherQuestions(kept + [first], id) + [second];
      { OtherQuestionsAppend(kept, [first], id); }
      OtherQuestions(kept, id) + OtherQuestions([first], id) + [second];
      { OtherQuestionsIdempotent(responses, id); OtherQuestionsDrops(first, id); }
      kept + [] + [second];
      Upsert(responses, second);
    }
  }

  /** An answer to the question is filtered out. */
  lemma OtherQuestionsDrops(answer: QuizResponse, questionId: int)
    requires answer.questionId == questionId
    ensures OtherQuestions([answer], questionId) == []
  {
    assert [answer][1..] == [];
  }

  /** Filtering a concatenation filters each part. */
  lemma {:induction false} OtherQuestionsAppend(xs: seq<QuizResponse>, ys: seq<QuizResponse>, questionId: int)
    ensures OtherQuestions(xs + ys, questionId) == OtherQuestions(xs, questionId) + OtherQuestions(ys, questionId)
    decreases |xs|
  {
    if xs == [] {
      assert xs + ys == ys;
    } else {
      var whole := xs + ys;
      assert whole[0] == xs[0] && whole[1..] == xs[1..] + ys;
      OtherQuestionsAppend(xs[1..], ys, questionId);
    }
  }

  /** After filtering, a second filter removes nothing. */
  lemma {:induction false} OtherQuestionsIdempotent(rs: seq<QuizResponse>, questionId: int)
    ensures OtherQuestions(OtherQuestions(rs, questionId), questionId) == OtherQuestions(rs, questionId)
    decreases |rs|
  {
    if rs != [] {
      var rest := OtherQuestions(rs[1..], questionId);
      OtherQuestionsIdempotent(rs[1..], questionId);
      if rs[0].questionId != questionId {
        var out := [rs[0]] + rest;
        assert OtherQuestions(rs, questionId) == out;
        assert out[0] == rs[0] && out[1..] == rest;
      } else {
        assert OtherQuestions(rs, questionId) == rest;
      }
    }
  }

  class QuestionScreen {
    /** The bank the screen walks through. */
    const questions: seq<QuizQuestion>
    var currentQuestionIndex: nat
    var responses: seq<QuizResponse>
    /** `selectedOption`: the position of the answer just picked, if any. */
    var selectedOption: Option<nat>
    var isAdvancing: bool

    /** The index always points into the bank. */
    predicate Valid()
      reads this
    {
      currentQuestionIndex < |questions|
    }

    /** `useState(0)`, `useState(initialResponses)`, `useState(null)`, `useState(false)`. */
    constructor(bank: seq<QuizQuestion>, initialResponses: seq<QuizResponse>)
      requires bank != []
      ensures Valid()
      ensures questions == bank && currentQuestionIndex == 0 && responses == initialResponses
      ensures selectedOption == None && !isAdvancing
    {
      questions := bank;
      currentQuestionIndex := 0;
      responses := initialResponses;
      selectedOption := None;
      isAdvancing := false;
    }

    /** `isLastQuestion`. */
    predicate IsLastQuestion()
      reads this
      ensures Valid() ==> (IsLastQuestion() <==> currentQuestionIndex + 1 >= |questions|)
    {
      currentQuestionIndex == |questions| - 1
    }

    /** `canProceed`: the current question already has an answer. */
    predicate CanProceed()
      reads this
      requires Valid()
      ensures CanProceed() <==> exists r :: r in responses && r.questionId == questions[currentQuestionIndex].id
    {
      Find(responses, questions[currentQuestionIndex].id).Some?
    }

    /** `handleOptionSelect(optionIndex)`, with the 600 ms pause folded in: the
        answer replaces any earlier answer to the current question and goes to
        the end of the list; then the screen moves to the next question, or, on
        the last one, hands the list to `onSubmit` (`submitted`) and stays.
        While `isAdvancing` a tap does nothing. */
    method HandleOptionSelect(optionIndex: nat) returns (submitted: Option<seq<QuizResponse>>)
      requires Valid() && optionIndex < |questions[currentQuestionIndex].options|
      modifies this
      ensures Valid()
      ensures old(isAdvancing) ==>
                submitted == None && currentQuestionIndex == old(currentQuestionIndex) &&
                responses == old(responses) && selectedOption == old(selectedOption) && isAdvancing
      ensures !old(isAdvancing) ==>
                var question := questions[old(currentQuestionIndex)];
                responses == Upsert(old(responses), QuizResponse(question.id, question.options[optionIndex], optionIndex))
      ensures !old(isAdvancing) && old(IsLastQuestion()) ==>
                submitted == Some(responses) && currentQuestionIndex == old(currentQuestionIndex) &&
                selectedOption == Some(optionIndex) && isAdvancing
      ensures !old(isAdvancing) && !old(IsLastQuestion()) ==>
                submitted == None && currentQuestionIndex == old(currentQuestionIndex) + 1 &&
                selectedOption == None && !isAdvancing
      ensures old(UniqueIds(responses)) ==> UniqueIds(responses)
    {
      submitted := None;
      if isAdvancing {
        return;
      }
      var currentQuestion := questions[currentQuestionIndex];
      var answer := QuizResponse(currentQuestion.id, currentQuestion.options[optionIndex], optionIndex);
      var newResponses := Upsert(responses, answer);
      if UniqueIds(responses) {
        UpsertKeepsUnique(responses, answer);
      }
      responses := newResponses;
      selectedOption := Some(optionIndex);
      isAdvancing := true;
      if currentQuestionIndex == |questions| - 1 {
        submitted := Some(newResponses);
      } else {
        currentQuestionIndex := currentQuestionIndex + 1;
        selectedOption := None;
        isAdvancing := false;
      }
    }

    /** `handlePrevious`: one question back, unless at the first question or
        while advancing; the answers are kept. */
    method HandlePrevious()
      requires Valid()
      modifies this
      ensures Valid() && responses == old(responses)
      ensures old(currentQuestionIndex) > 0 && !old(isAdvancing) ==>
                currentQuestionIndex == old(currentQuestionIndex) - 1 && selectedOption == None && !isAdvancing
      ensures !(old(currentQuestionIndex) > 0 && !old(isAdvancing)) ==>
                currentQuestionIndex == old(currentQuestionIndex) &&
                selectedOption == old(selectedOption) && isAdvancing == old(isAdvancing)
    {
      if currentQuestionIndex > 0 && !isAdvancing {
        currentQuestionIndex := currentQuestionIndex - 1;
        selectedOption := None;
        isAdvancing := false;
      }
    }
  }

  /** Once a question is answered it stays answered: answering another
      question keeps the earlier answer. */
  lemma AnsweredStaysAnswered(responses: seq<QuizResponse>, answer: QuizResponse, questionId: int)
    requires Find(responses, questionId).Some?
    ensures Find(Upsert(responses, answer), questionId).Some?
  {
    var r := Find(responses, questionId).value;
    if r.questionId != answer.questionId {
      assert r in Upsert(responses, answer);
    } else {
      assert answer in Upsert(responses, answer);
    }
  }

  /** The answer just given is the one `find` returns for its question. */
  lemma FindsNewAnswer(responses: seq<QuizResponse>, answer: QuizResponse)
    ensures Find(Upsert(responses, answer), answer.questionId) == Some(answer)
  {
    var kept := OtherQuestions(responses, answer.questionId);
    FindPast(kept, [answer], answer.questionId);
  }

  /** `find` passes over a prefix without the id. */
  lemma {:induction false} FindPast(prefix: seq<QuizResponse>, rest: seq<QuizResponse>, questionId: int)
    requires forall r :: r in prefix ==> r.questionId != questionId
    ensures Find(prefix + rest, questionId) == Find(rest, questionId)
    decreases |prefix|
  {
    if prefix != [] {
      var whole := prefix + rest;
      assert whole[1..] == prefix[1..] + rest;
      assert prefix[0] in prefix;
      assert whole[0] == prefix[0];
      assert Find(whole, questionId) == Find(whole[1..], questionId);
      assert forall r :: r in prefix[1..] ==> r in prefix;
      FindPast(prefix[1..], rest, questionId);
    } else {
      assert prefix + rest == rest;
    }
  }
}
