/** The session state machine of App.tsx: which screen is shown, the captured
    image, the requested question count, the generated questions, the final
    score and the error message, driven by the app's handlers and by the
    inline button callbacks of its screens. `handleGenerate` is split at its
    await into `BeginGenerate` and `CompleteGenerate`. Each handler requires
    the screen whose controls reach it; the generating screen has no controls,
    so no handler runs between the two halves. */
module App {
  import opened Types
  import GeminiService
  import Quiz

  /** The only message the app shows for a failed generation, whatever the cause. */
  const AnalyzeFailedMessage: string := "Failed to analyze image. Please try again with a clearer photo."

  /** The question count a new session starts with. */
  const DefaultQuestionCount: int := 5

  /** What the quiz generation call is given: the image with its data-URL
      header removed, and the requested number of questions. */
  datatype QuizRequest = QuizRequest(imageData: string, questionCount: int)

  /** The percentage on the result screen, `Math.round(score / total * 100)`,
      computed exactly: the nearest integer to 100 * score / total, halves
      rounded up. */
  function ResultPercentage(score: int, total: int): (pct: int)
    requires total > 0
    ensures 2 * pct * total - total <= 200 * score < 2 * pct * total + total
    ensures 0 <= score <= total ==> 0 <= pct <= 100
  {
    var pct := (200 * score + total) / (2 * total);
    RoundingBounds(score, total, pct);
    pct
  }

  lemma RoundingBounds(score: int, total: int, pct: int)
    requires total > 0 && pct == (200 * score + total) / (2 * total)
    ensures 2 * pct * total - total <= 200 * score < 2 * pct * total + total
    ensures 0 <= score <= total ==> 0 <= pct <= 100
  {
    var n, d := 200 * score + total, 2 * total;
    var rem := n % d;
    assert n == d * pct + rem && 0 <= rem < d;
    assert 2 * pct * total == d * pct;
    if 0 <= score <= total {
      PositiveFactor(d, pct + 1);
      PositiveFactor(d, 101 - pct);
    }
  }

  /** A positive product with a positive factor has a positive cofactor. */
  lemma PositiveFactor(d: int, x: int)
    requires d > 0 && d * x > 0
    ensures x > 0
  {
  }

  /** Three questions answered correct, incorrect, correct give 67%. */
  lemma TwoOfThreeIs67()
    ensures ResultPercentage(2, 3) == 67
  {
  }

  class Session {
    var appState: AppState
    var capturedImage: Option<string>
    var questionCount: int
    var questions: seq<Question>
    var score: int
    var errorMsg: Option<string>

    ghost predicate Valid()
      reads this
    {
      && 1 <= questionCount <= 10
      && (errorMsg.Some? ==> errorMsg.value == AnalyzeFailedMessage)
      && (appState == ERROR ==> errorMsg.Some?)
      && (appState == CONFIG ==> capturedImage.Some?)
      && (appState == GENERATING ==> Truthy(capturedImage) && errorMsg.None?)
      && (appState == RESULT ==> |questions| > 0)
    }

    /** The initial session: the welcome screen, five questions, nothing else. */
    constructor ()
      ensures Valid()
      ensures appState == WELCOME && capturedImage == None && questionCount == DefaultQuestionCount
      ensures questions == [] && score == 0 && errorMsg == None
    {
      appState := WELCOME;
      capturedImage := None;
      questionCount := DefaultQuestionCount;
      questions := [];
      score := 0;
      errorMsg := None;
    }

    /** `startFlow`: to the camera. */
    method StartFlow()
      requires Valid()
      requires appState == WELCOME
      modifies this`appState
      ensures Valid()
      ensures appState == CAMERA
    {
      appState := CAMERA;
    }

    /** The camera's cancel callback: back to the welcome screen, keeping all data. */
    method Cancel()
      requires Valid()
      requires appState == CAMERA
      modifies this`appState
      ensures Valid()
      ensures appState == WELCOME
    {
      appState := WELCOME;
    }

    /** `handleCapture`: keeps the image and moves to the settings screen. */
    method HandleCapture(image: string)
      requires Valid()
      requires appState == CAMERA
      modifies this`capturedImage, this`appState
      ensures Valid()
      ensures capturedImage == Some(image) && appState == CONFIG
    {
      capturedImage := Some(image);
      appState := CONFIG;
    }

    /** The range input of the settings screen, whose values run from 1 to 10. */
    method SetQuestionCount(n: int)
      requires Valid()
      requires appState == CONFIG
      requires 1 <= n <= 10
      modifies this`questionCount
      ensures Valid()
      ensures questionCount == n
    {
      questionCount := n;
    }

    /** The settings screen's Retake button: back to the camera, keeping all data. */
    method Retake()
      requires Valid()
      requires appState == CONFIG
      modifies this`appState
      ensures Valid()
      ensures appState == CAMERA
    {
      appState := CAMERA;
    }

    /** `handleGenerate` up to the gateway call: nothing happens without a
        (non-empty) image; otherwise the error is cleared, the generating
        screen shown, and the cleaned image and the count requested. */
    method BeginGenerate() returns (request: Option<QuizRequest>)
      requires Valid()
      requires appState == CONFIG
      modifies this`appState, this`errorMsg
      ensures Valid()
      ensures !Truthy(capturedImage) ==>
                request == None && appState == old(appState) && errorMsg == old(errorMsg)
      ensures Truthy(capturedImage) ==>
                && appState == GENERATING && errorMsg == None
                && request == Some(QuizRequest(GeminiService.CleanBase64(capturedImage.value), questionCount))
    {
      if !Truthy(capturedImage) {
        return None;
      }
      appState := GENERATING;
      errorMsg := None;
      request := Some(QuizRequest(GeminiService.CleanBase64(capturedImage.value), questionCount));
    }

    /** `handleGenerate` after the gateway call: the questions it returned,
        exactly, and the quiz screen; or, on any error, the fixed message and
        the error screen, the previous questions left in place. */
    method CompleteGenerate(response: GeminiService.QuizResponse, parse: string -> Option<seq<Question>>)
      requires Valid()
      requires appState == GENERATING
      modifies this`questions, this`appState, this`errorMsg
      ensures Valid()
      ensures GeminiService.QuizFromResponse(response, parse).Ok? ==>
                && questions == GeminiService.QuizFromResponse(response, parse).value
                && appState == QUIZ && errorMsg == None
      ensures GeminiService.QuizFromResponse(response, parse).Err? ==>
                && questions == old(questions)
                && appState == ERROR && errorMsg == Some(AnalyzeFailedMessage)
    {
      var generated := GeminiService.QuizFromResponse(response, parse);
      match generated
      case Ok(generatedQuestions) =>
        questions := generatedQuestions;
        appState := QUIZ;
      case Err(_) =>
        errorMsg := Some(AnalyzeFailedMessage);
        appState := ERROR;
    }

    /** `handleQuizFinish`: keeps the final score and shows the result. The
        player that calls it is only shown while there are questions; its
        second `onFinish` call of the same click arrives on the result screen. */
    method HandleQuizFinish(finalScore: int)
      requires Valid()
      requires appState == QUIZ || appState == RESULT
      requires |questions| > 0
      modifies this`score, this`appState
      ensures Valid()
      ensures score == finalScore && appState == RESULT
    {
      score := finalScore;
      appState := RESULT;
    }

    /** The error screen's Try Again button: back to the camera, keeping all data. */
    method TryAgain()
      requires Valid()
      requires appState == ERROR
      modifies this`appState
      ensures Valid()
      ensures appState == CAMERA
    {
      appState := CAMERA;
    }

    /** `resetApp`: the welcome screen with image, questions, score and error
        cleared; the question count is kept. */
    method ResetApp()
      requires Valid()
      requires appState == RESULT
      modifies this`appState, this`capturedImage, this`questions, this`score, this`errorMsg
      ensures Valid()
      ensures appState == WELCOME && capturedImage == None && questions == [] && score == 0
      ensures errorMsg == None
    {
      appState := WELCOME;
      capturedImage := None;
      questions := [];
      score := 0;
      errorMsg := None;
    }

    /** The percentage the result screen shows. */
    function Percentage(): (pct: int)
      reads this
      requires Valid() && appState == RESULT
      ensures 0 <= score <= |questions| ==> 0 <= pct <= 100
    {
      ResultPercentage(score, |questions|)
    }
  }

  /** The player over three questions answered correct, incorrect, correct:
      the score it reports to `onFinish`, twice, includes the last answer. */
  method PlayThreeQuestions(questions: seq<Question>) returns (reported: seq<nat>)
    requires |questions| == 3
    requires forall k :: 0 <= k < 3 ==> |questions[k].options| == 4 && questions[k].correctIndex == 0
    ensures reported == [2, 2]
  {
    var player := new Quiz.QuizPlayer(questions);
    player.HandleOptionSelect(0);
    assert player.score == 1 && player.currentIndex == 0;
    player.HandleNext();
    player.HandleOptionSelect(1);
    assert player.score == 1 && player.currentIndex == 1;
    player.HandleNext();
    player.HandleOptionSelect(0);
    assert player.score == 2 && player.currentIndex == 2;
    player.HandleNext();
    reported := player.finishCalls;
  }

  /** A whole session: capture, generate three questions, play them as above,
      finish. The result screen shows 2 of 3, that is 67%. */
  method ThreeQuestionSession(q0: Question, q1: Question, q2: Question)
    returns (state: AppState, finalScore: int, pct: int)
    requires |q0.options| == 4 && |q1.options| == 4 && |q2.options| == 4
    requires q0.correctIndex == 0 && q1.correctIndex == 0 && q2.correctIndex == 0
    ensures state == RESULT && finalScore == 2 && pct == 67
  {
    var session := new Session();
    session.StartFlow();
    assert session.appState == CAMERA;
    session.HandleCapture("data:image/jpeg;base64,QUJD");
    assert session.appState == CONFIG;
    session.SetQuestionCount(3);
    assert session.appState == CONFIG && Truthy(session.capturedImage);
    var request := session.BeginGenerate();
    assert session.appState == GENERATING;
    var generated := [q0, q1, q2];
    session.CompleteGenerate(GeminiService.QuizAnswered(Some("[...]")), _ => Some(generated));
    assert session.questions == generated && session.appState == QUIZ;

    var reported := PlayThreeQuestions(session.questions);
    assert reported == [2, 2];
    session.HandleQuizFinish(reported[0]);
    assert session.appState == RESULT && |session.questions| == 3;
    session.HandleQuizFinish(reported[1]);
    state, finalScore := session.appState, session.score;
    TwoOfThreeIs67();
    pct := session.Percentage();
  }

  /** A failed generation shows the fixed message and keeps no new questions;
      Try Again returns to the camera. */
  method FailedGenerationSession() returns (state: AppState, message: Option<string>, questions: seq<Question>)
    ensures state == CAMERA && message == Some(AnalyzeFailedMessage) && questions == []
  {
    var session := new Session();
    session.StartFlow();
    session.HandleCapture("data:image/png;base64,QUJD");
    var request := session.BeginGenerate();
    session.CompleteGenerate(GeminiService.QuizAnswered(None), _ => None);
    session.TryAgain();
    state, message, questions := session.appState, session.errorMsg, session.questions;
  }
}
