/** The step machine of `components/quiz/quiz-container.tsx`. Each React state
    variable is a field and each handler a method. The outcome of a network
    call is a parameter of the handler that makes it: whether saving the quiz
    succeeded, whether the e-mail was accepted, and the answer to the
    confirmation dialog. The session id, generated from the clock and a random
    number when the page mounts, is a constructor parameter. */
module QuizContainer {
  import opened Wrappers
  import opened QuizData

  datatype QuizStep = Welcome | Questions | Results | ThankYou

  datatype SaveStatus = Pending | Success | Failed

  /** The position of a step in the flow. */
  function StepNumber(step: QuizStep): nat {
    match step
    case Welcome => 0
    case Questions => 1
    case Results => 2
    case ThankYou => 3
  }

  /** `progressPercentage`: 0 on the welcome screen, 100 on the last one, and
      growing with every step in between. */
  function ProgressPercentage(step: QuizStep): (percent: nat)
    ensures percent <= 100
    ensures percent == 0 <==> step == Welcome
    ensures percent == 100 <==> step == ThankYou
  {
    match step
    case Welcome => 0
    case Questions => 33
    case Results => 66
    case ThankYou => 100
  }

  /** The progress bar never moves back as the quiz moves forward. */
  lemma ProgressGrows(earlier: QuizStep, later: QuizStep)
    requires StepNumber(earlier) < StepNumber(later)
    ensures ProgressPercentage(earlier) < ProgressPercentage(later)
  {
  }

  /** The result stored for a set of answers when `classify` reads each
      answer: an animal with the most votes, the alphabetically first among
      several (what `determineAnimalTypeFromResponses` returns when `classify`
      is `AnimalForOption`). */
  predicate IsResultFor(classify: string -> Option<Animal>, responses: seq<QuizResponse>, animal: Animal) {
    IsAlphabeticalWinner(Votes(classify, responses), animal)
  }

  class Quiz {
    var currentStep: QuizStep
    var email: string
    var quizResponses: seq<QuizResponse>
    var animalResult: Option<Animal>
    const sessionId: string
    /** The reading of an answer the scoring uses, `AnimalForOption`; kept
        as a field so that the invariant can speak of the result without
        unfolding the answer table. */
    const classify: string -> Option<Animal>
    var cohortId: string
    var saveStatus: SaveStatus

    /** What holds between the handlers: before the answers are in there is
        no result and nothing was saved; afterwards the stored result is the
        one the stored answers produce; the welcome screen starts from an
        empty quiz. */
    predicate Valid()
      reads this
    {
      (currentStep == Welcome || currentStep == Questions <==> animalResult == None) &&
      (animalResult == None ==> saveStatus == Pending) &&
      (animalResult.Some? ==> IsResultFor(classify, quizResponses, animalResult.value)) &&
      (currentStep == Welcome ==> quizResponses == [] && email == [] && cohortId == [])
    }

    /** The state on mount. */
    constructor(generatedSessionId: string)
      ensures Valid()
      ensures currentStep == Welcome && email == [] && quizResponses == [] && animalResult == None
      ensures sessionId == generatedSessionId && cohortId == [] && saveStatus == Pending
      ensures classify == AnimalForOption
    {
      classify := AnimalForOption;
      currentStep := Welcome;
      email := [];
      quizResponses := [];
      animalResult := None;
      sessionId := generatedSessionId;
      cohortId := [];
      saveStatus := Pending;
    }

    /** `handleWelcomeStart(groupCohortId)`, offered on the welcome screen:
        on to the questions, taking the group's cohort id when one is given
        and it is not the empty string. */
    method HandleWelcomeStart(groupCohortId: Option<string>)
      requires Valid() && currentStep == Welcome
      modifies this
      ensures Valid() && currentStep == Questions
      ensures cohortId == (if groupCohortId.Some? && groupCohortId.value != [] then groupCohortId.value else old(cohortId))
      ensures email == old(email) && quizResponses == old(quizResponses)
      ensures animalResult == old(animalResult) && saveStatus == old(saveStatus)
    {
      if groupCohortId.Some? && groupCohortId.value != [] {
        cohortId := groupCohortId.value;
      }
      currentStep := Questions;
    }

    /** `handleQuestionsSubmit(responses)`, called by the question screen
        with every answer: the answers and their result are stored and the
        results are shown, whether or not saving succeeded (`saved` is the
        outcome of the `/api/save-quiz` request). */
    method HandleQuestionsSubmit(responses: seq<QuizResponse>, saved: bool)
      requires Valid() && currentStep == Questions && classify == AnimalForOption
      modifies this
      ensures Valid() && currentStep == Results
      ensures quizResponses == responses
      ensures animalResult.Some? && IsResultFor(classify, responses, animalResult.value)
      ensures saveStatus == (if saved then Success else Failed)
      ensures email == old(email) && cohortId == old(cohortId)
    {
      var result, _ := DetermineAnimalTypeFromResponses(responses);
      ShowResult(responses, result, saved);
    }

    /** The state updates of `handleQuestionsSubmit` once the result of the
        answers is known: `setQuizResponses`, `setAnimalResult`, the save
        status, and `setCurrentStep('results')`. */
    method ShowResult(responses: seq<QuizResponse>, result: Animal, saved: bool)
      requires Valid() && currentStep == Questions && IsResultFor(classify, responses, result)
      modifies this
      ensures Valid() && currentStep == Results
      ensures quizResponses == responses && animalResult == Some(result)
      ensures saveStatus == (if saved then Success else Failed)
      ensures email == old(email) && cohortId == old(cohortId)
    {
      quizResponses := responses;
      animalResult := Some(result);
      currentStep := Results;
      assert IsResultFor(classify, quizResponses, animalResult.value);
      if saved {
        saveStatus := Success;
      } else {
        saveStatus := Failed;
      }
    }

    /** `handleResultsSubmit(email)`, called by the results screen: the
        address is kept, and the thank-you screen follows only when the
        `/api/submit` request was accepted. */
    method HandleResultsSubmit(submittedEmail: string, accepted: bool)
      requires Valid() && currentStep == Results
      modifies this
      ensures Valid() && email == submittedEmail
      ensures currentStep == (if accepted then ThankYou else Results)
      ensures quizResponses == old(quizResponses) && animalResult == old(animalResult)
      ensures cohortId == old(cohortId) && saveStatus == old(saveStatus)
    {
      email := submittedEmail;
      if accepted {
        currentStep := ThankYou;
      }
    }

    /** `handleRestart`: back to an empty welcome screen in the same
        session. */
    method HandleRestart()
      modifies this
      ensures Valid()
      ensures currentStep == Welcome && email == [] && quizResponses == [] && animalResult == None
      ensures cohortId == [] && saveStatus == Pending
    {
      email := [];
      quizResponses := [];
      animalResult := None;
      cohortId := [];
      saveStatus := Pending;
      currentStep := Welcome;
    }

    /** `handleRestartConfirm`, the "Start Over" button: in the middle of
        the quiz it restarts only when the user confirms (`confirmed` is the
        answer to `window.confirm`); elsewhere it restarts at once. */
    method HandleRestartConfirm(confirmed: bool)
      requires Valid()
      modifies this
      ensures Valid()
      ensures var asked := old(currentStep) == Questions || old(currentStep) == Results;
              if asked && !confirmed then
                currentStep == old(currentStep) && email == old(email) && quizResponses == old(quizResponses) &&
                animalResult == old(animalResult) && cohortId == old(cohortId) && saveStatus == old(saveStatus)
              else
                currentStep == Welcome && email == [] && quizResponses == [] && animalResult == None &&
                cohortId == [] && saveStatus == Pending
    {
      if currentStep != Welcome && currentStep != ThankYou {
        if confirmed {
          HandleRestart();
        }
      } else {
        HandleRestart();
      }
    }

    /** `progressPercentage` of the current step. */
    function Progress(): (percent: nat)
      reads this
      ensures percent <= 100
    {
      ProgressPercentage(currentStep)
    }
  }

  /** A whole run: start, answer, leave an address that is accepted, and
      restart. The quiz ends on an empty welcome screen in the same session,
      and the result shown on the way was the one the answers produce. */
  method CompleteRun(session: string, answers: seq<QuizResponse>, address: string) returns (quiz: Quiz, shown: Animal)
    ensures IsResultFor(AnimalForOption, answers, shown)
    ensures quiz.Valid() && quiz.currentStep == Welcome && quiz.sessionId == session
    ensures quiz.quizResponses == [] && quiz.animalResult == None
  {
    quiz := new Quiz(session);
    quiz.HandleWelcomeStart(None);
    quiz.HandleQuestionsSubmit(answers, true);
    shown := quiz.animalResult.value;
    quiz.HandleResultsSubmit(address, true);
    assert quiz.currentStep == ThankYou;
    quiz.HandleRestartConfirm(false);
  }
}
