// The session controller of App.tsx: five state cells and one method per event.  Each
// asynchronous handler is split into the step that runs when the event fires and the step
// that runs when the awaited analysis settles.

module App {
  import opened Wrappers
  import opened Types
  import Constants
  import GeminiService

  /** What a failed analysis or file read throws: an Error with a message, or some other value. */
  datatype Thrown = ErrorObject(message: string) | NonErrorValue

  /**
   * How an awaited analysis settles.  A resolved value is what the service parsed, which may
   * be a falsy JSON value (`None`).
   */
  datatype Outcome = Succeeded(result: Option<AnalysisResult>) | Threw(thrown: Thrown)

  /** The service call as the handlers see it: its failures are thrown Error objects. */
  function OutcomeOf(r: Result<Option<AnalysisResult>, string>): (o: Outcome)
    ensures o.Succeeded? <==> r.Success?
    ensures r.Success? ==> o.result == r.value
    ensures r.Failure? ==> o.thrown == ErrorObject(r.error)
  {
    match r
    case Success(v) => Succeeded(v)
    case Failure(e) => Threw(ErrorObject(e))
  }

  /** The message a catch block shows: the Error's message, or the handler's fallback text. */
  function MessageOr(t: Thrown, fallback: string): (m: string)
    ensures t.ErrorObject? ==> m == t.message
    ensures t.NonErrorValue? ==> m == fallback
  {
    match t
    case ErrorObject(msg) => msg
    case NonErrorValue => fallback
  }

  const UnknownErrorMessage: string := "Unknown error occurred"
  const UploadFailureMessage: string := "Failed to analyze uploaded image"
  const ReadFailureMessage: string := "Failed to read file"

  /** What the file reader produced: a data URL string, or anything else. */
  datatype FileRead = ReadString(contents: string) | ReadOther

  /** The five state cells, as one value; an `analysisResult` of `None` is a falsy value such as `null`. */
  datatype Session = Session(
    appState: AppState,
    analysisResult: Option<AnalysisResult>,
    errorMsg: string,
    language: Language,
    currentImage: Option<string>)

  /** The session of a freshly mounted app. */
  const InitialSession: Session := Session(Idle, None, "", En, None)

  /** The screen the main area shows. */
  datatype Screen =
    | Landing
    | CameraScreen
    | LoaderScreen(image: Option<string>)
    | ResultsScreen(result: AnalysisResult)
    | ErrorScreen(message: string)
    | Nothing

  /** The main area: the results view needs both the results state and a held result. */
  function ScreenOf(s: Session): (v: Screen)
    ensures v.ResultsScreen? <==> s.appState == Results && s.analysisResult.Some?
    ensures v.ResultsScreen? ==> v.result == s.analysisResult.value
    ensures v.Nothing? <==> s.appState == Results && s.analysisResult.None?
    ensures v.ErrorScreen? <==> s.appState == Error
    ensures v.ErrorScreen? ==> v.message == s.errorMsg
  {
    match s.appState
    case Idle => Landing
    case Camera => CameraScreen
    case Analyzing => LoaderScreen(s.currentImage)
    case Results => if s.analysisResult.Some? then ResultsScreen(s.analysisResult.value) else Nothing
    case Error => ErrorScreen(s.errorMsg)
  }

  class App {
    var appState: AppState
    var analysisResult: Option<AnalysisResult>
    var errorMsg: string
    var language: Language
    var currentImage: Option<string>

    /** The five cells as one value. */
    function Snap(): (s: Session)
      reads this
      ensures s.appState == appState && s.analysisResult == analysisResult && s.errorMsg == errorMsg
      ensures s.language == language && s.currentImage == currentImage
    {
      Session(appState, analysisResult, errorMsg, language, currentImage)
    }

    /** The results view is on screen. */
    function ShowsResults(): (b: bool)
      reads this
      ensures b <==> ScreenOf(Snap()).ResultsScreen?
    {
      appState == Results && analysisResult.Some?
    }

    /** Idle, no result, no error message, English, no image. */
    constructor ()
      ensures Snap() == InitialSession
    {
      appState := Idle;
      analysisResult := None;
      errorMsg := "";
      language := En;
      currentImage := None;
    }

    /** handleStart: open the camera. */
    method Start()
      modifies this
      ensures Snap() == old(Snap()).(appState := Camera)
    {
      appState := Camera;
    }

    /** handleCapture up to the await: keep the image and show the loader; the old result stays. */
    method CaptureBegin(image: string)
      modifies this
      ensures Snap() == old(Snap()).(appState := Analyzing, currentImage := Some(image))
    {
      currentImage := Some(image);
      appState := Analyzing;
    }

    /** handleCapture after the await: the result and the results state, or the message and the error state. */
    method CaptureComplete(outcome: Outcome)
      modifies this
      ensures outcome.Succeeded? ==>
                Snap() == old(Snap()).(appState := Results, analysisResult := outcome.result)
      ensures outcome.Threw? ==>
                Snap() == old(Snap()).(appState := Error, errorMsg := MessageOr(outcome.thrown, UnknownErrorMessage))
    {
      match outcome
      case Succeeded(r) =>
        analysisResult := r;
        appState := Results;
      case Threw(t) =>
        errorMsg := MessageOr(t, UnknownErrorMessage);
        appState := Error;
    }

    /** handleCapture end to end, with the service answering `service` and the key `apiKey`. */
    method HandleCapture(image: string, apiKey: Option<string>,
                         service: (GeminiService.Client, GeminiService.Request) -> GeminiService.ServiceReply)
      modifies this
      ensures language == old(language) && currentImage == Some(image)
      ensures var r := GeminiService.AnalyzeFaceForMaskFit(apiKey, image, old(language), service);
              && (r.Success? ==> appState == Results && analysisResult == r.value && errorMsg == old(errorMsg))
              && (r.Failure? ==> appState == Error && errorMsg == r.error && analysisResult == old(analysisResult))
    {
      CaptureBegin(image);
      var r := GeminiService.AnalyzeFaceForMaskFit(apiKey, image, language, service);
      CaptureComplete(OutcomeOf(r));
    }

    /** handleRetry: back to the camera with no result, no image and no message; the language stays. */
    method Retry()
      modifies this
      ensures Snap() == Session(Camera, None, "", old(language), None)
    {
      analysisResult := None;
      currentImage := None;
      errorMsg := "";
      appState := Camera;
    }

    /** toggleLanguage: en and zh swap; nothing else changes. */
    method ToggleLanguage()
      modifies this
      ensures language != old(language)
      ensures Snap() == old(Snap()).(language := old(language).Toggled())
    {
      language := if language == En then Zh else En;
    }

    /** A click on the header: back to the landing view, every other cell kept. */
    method HeaderClick()
      modifies this
      ensures Snap() == old(Snap()).(appState := Idle)
    {
      appState := Idle;
    }

    /** The camera's close button: back to the landing view. */
    method CameraClose()
      modifies this
      ensures Snap() == old(Snap()).(appState := Idle)
    {
      appState := Idle;
    }

    /** The camera reports a failure: the current locale's camera error and the error state. */
    method CameraError()
      modifies this
      ensures Snap() == old(Snap()).(appState := Error, errorMsg := Constants.Translations(old(language)).cameraError)
    {
      errorMsg := Constants.Translations(language).cameraError;
      appState := Error;
    }

    /** handleFileChange when the input changes: nothing without a file, the loader otherwise. */
    method FileSelected(selected: bool) returns (started: bool)
      modifies this
      ensures started == selected
      ensures !selected ==> Snap() == old(Snap())
      ensures selected ==> Snap() == old(Snap()).(appState := Analyzing)
    {
      if !selected {
        return false;
      }
      appState := Analyzing;
      started := true;
    }

    /**
     * The reader's loadend callback up to the await: a string becomes the current image and the
     * analysis starts; anything else is thrown as an Error and lands in the error state.
     */
    method FileLoaded(read: FileRead) returns (analysisStarted: bool)
      modifies this
      ensures analysisStarted <==> read.ReadString?
      ensures read.ReadString? ==> Snap() == old(Snap()).(currentImage := Some(read.contents))
      ensures read.ReadOther? ==> Snap() == old(Snap()).(appState := Error, errorMsg := ReadFailureMessage)
    {
      match read
      case ReadString(contents) =>
        currentImage := Some(contents);
        analysisStarted := true;
      case ReadOther =>
        errorMsg := MessageOr(ErrorObject(ReadFailureMessage), UploadFailureMessage);
        appState := Error;
        analysisStarted := false;
    }

    /** The loadend callback after the await: as for a capture, with the upload's fallback text. */
    method FileAnalysisComplete(outcome: Outcome)
      modifies this
      ensures outcome.Succeeded? ==>
                Snap() == old(Snap()).(appState := Results, analysisResult := outcome.result)
      ensures outcome.Threw? ==>
                Snap() == old(Snap()).(appState := Error, errorMsg := MessageOr(outcome.thrown, UploadFailureMessage))
    {
      match outcome
      case Succeeded(r) =>
        analysisResult := r;
        appState := Results;
      case Threw(t) =>
        errorMsg := MessageOr(t, UploadFailureMessage);
        appState := Error;
    }

    /** handleFileChange end to end: no file, a non-string read, or an analysis of the data URL. */
    method HandleFileChange(file: Option<FileRead>, apiKey: Option<string>,
                            service: (GeminiService.Client, GeminiService.Request) -> GeminiService.ServiceReply)
      modifies this
      ensures language == old(language)
      ensures file.None? ==> Snap() == old(Snap())
      ensures file == Some(ReadOther) ==>
                Snap() == old(Snap()).(appState := Error, errorMsg := ReadFailureMessage)
      ensures file.Some? && file.value.ReadString? ==>
                var r := GeminiService.AnalyzeFaceForMaskFit(apiKey, file.value.contents, old(language), service);
                && (r.Success? ==>
                      Snap() == old(Snap()).(appState := Results, analysisResult := r.value,
                                             currentImage := Some(file.value.contents)))
                && (r.Failure? ==>
                      Snap() == old(Snap()).(appState := Error, errorMsg := r.error,
                                             currentImage := Some(file.value.contents)))
    {
      var started := FileSelected(file.Some?);
      if started {
        var analysing := FileLoaded(file.value);
        if analysing {
          var r := GeminiService.AnalyzeFaceForMaskFit(apiKey, file.value.contents, language, service);
          FileAnalysisComplete(OutcomeOf(r));
        }
      }
    }
  }

  // ---------------------------------------------------------------------------
  // Sessions
  // ---------------------------------------------------------------------------

  /** Toggling the language twice leaves every cell as it was. */
  method ToggleTwiceRestores(a: App)
    modifies a
    ensures a.Snap() == old(a.Snap())
  {
    a.ToggleLanguage();
    a.ToggleLanguage();
    ToggledTwice(old(a.language));
  }

  /**
   * Start, capture, a parsed reply: the results view shows exactly the reply, with the captured
   * image; the error message is still empty.
   */
  method CaptureSucceeds(image: string, key: string, reply: AnalysisResult) returns (s: Session, shown: Screen)
    requires key != ""
    ensures s == Session(Results, Some(reply), "", En, Some(image))
    ensures shown == ResultsScreen(reply)
  {
    var a := new App();
    a.Start();
    a.HandleCapture(image, Some(key), (c, q) => GeminiService.Parsed(Some(reply)));
    s := a.Snap();
    shown := ScreenOf(s);
  }

  /**
   * Without a key the capture ends in the error state with the missing-key message; retrying
   * returns to the camera with every cell cleared except the language.
   */
  method MissingKeyThenRetry(image: string, lang: Language, service: (GeminiService.Client, GeminiService.Request) -> GeminiService.ServiceReply)
    returns (failed: Session, retried: Session)
    ensures failed.appState == Error && failed.errorMsg == GeminiService.MissingKeyMessage
    ensures failed.currentImage == Some(image) && failed.analysisResult == None
    ensures retried == Session(Camera, None, "", failed.language, None)
  {
    var a := new App();
    a.Start();
    a.HandleCapture(image, None, service);
    failed := a.Snap();
    a.Retry();
    retried := a.Snap();
  }

  /** A second capture keeps showing the first result's value in the cell until its own analysis settles. */
  method RecaptureKeepsOldResult(first: AnalysisResult, image: string) returns (during: Session)
    ensures during.appState == Analyzing && during.analysisResult == Some(first)
    ensures during.currentImage == Some(image)
  {
    var a := new App();
    a.CaptureBegin("first");
    a.CaptureComplete(Succeeded(Some(first)));
    a.HeaderClick();
    a.Start();
    a.CaptureBegin(image);
    during := a.Snap();
  }

  /**
   * Nothing cancels an analysis: a header click while it runs goes back to the landing view,
   * and the settling analysis then moves the session to the results state anyway.
   */
  method LateCompletionWins(image: string, reply: AnalysisResult) returns (s: Session)
    ensures s.appState == Results && s.analysisResult == Some(reply)
  {
    var a := new App();
    a.Start();
    a.CaptureBegin(image);
    a.HeaderClick();
    a.CaptureComplete(Succeeded(Some(reply)));
    s := a.Snap();
  }

  /**
   * A reply whose text is `null` is stored as the result and the state becomes results, but the
   * main area then shows nothing: neither the results view nor an error.
   */
  method NullReplyShowsNothing(image: string, key: string, lang: Language) returns (s: Session, shown: Screen)
    requires key != ""
    ensures s.appState == Results && s.analysisResult == None && s.errorMsg == ""
    ensures shown == Nothing
  {
    var a := new App();
    if lang != a.language {
      a.ToggleLanguage();
    }
    a.Start();
    a.HandleCapture(image, Some(key), (c, q) => GeminiService.Parsed(None));
    s := a.Snap();
    shown := ScreenOf(s);
  }

  /** A camera failure after a language toggle shows the camera error of the new language. */
  method CameraErrorFollowsLanguage() returns (s: Session)
    ensures s.appState == Error && s.language == Zh
    ensures s.errorMsg == Constants.Translations(Zh).cameraError
  {
    var a := new App();
    a.Start();
    a.ToggleLanguage();
    a.CameraError();
    s := a.Snap();
  }
}
