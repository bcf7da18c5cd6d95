/** The page's control state: the module-level `model`, `stream`, `webcam` and
    `capturedImage` variables, the three buttons' `disabled` flags, and the
    event handlers that change them. A click on a disabled button never
    reaches its handler. */
module PageControls {
  import opened Wrappers
  import opened SaveDecision
  import opened InsertRecord

  const ReadyText := "Ready for analysis"
  const CameraErrorText := "Error: Could not access camera. Check permissions."
  const CameraStoppedText := "Camera stopped."
  const NoStreamText := "No active camera stream."
  const CapturedText := "Image captured. Click 'Analyze' to process."
  const AnalyzingText := "Analyzing..."
  const StartCameraLabel := "Start Camera"
  const RestartCameraLabel := "Restart Camera"
  const SaveErrorAlert := "Error saving record"

  /** How the Teachable Machine webcam on a granted stream ends: its
      constructor threw (so `webcam` is not assigned), its `setup` failed, or
      it is ready. */
  datatype WebcamSetup = NotConstructed | SetupFailed | Ready

  /** How `getUserMedia` ends, and for a granted stream how the webcam ends. */
  datatype CameraOutcome = Denied | Granted(setup: WebcamSetup)

  /** How the POST to insert_record.php ends: the script ran and its text
      arrived (with the driver's message if its INSERT failed); the script ran
      but `fetch` or `response.text()` failed afterwards; or the request never
      reached the script. */
  datatype Delivery =
    | Delivered(dbError: Option<string>)
    | ResponseLost(dbError: Option<string>)
    | RequestFailed

  /** A property value of a prediction object, as JavaScript reads it. */
  datatype JsValue = JsString(s: string) | JsNumber(x: real)

  /** Own-property lookup on `{className, probability}`: any other own key,
      such as the misspelt `classname`, is undefined. Members inherited from
      `Object.prototype` (`toString`, ...) are not modelled. */
  function Property(p: Prediction, key: string): (v: Option<JsValue>)
    ensures v.Some? <==> key == "className" || key == "probability"
    ensures key == "className" ==> v == Some(JsString(p.className))
  {
    if key == "className" then Some(JsString(p.className))
    else if key == "probability" then Some(JsNumber(p.probability))
    else None
  }

  /** JavaScript truthiness: undefined, "" and 0 are false. */
  predicate JsTruthy(v: Option<JsValue>)
    ensures JsTruthy(v) ==> v.Some?
  {
    match v
    case None => false
    case Some(JsString(s)) => s != ""
    case Some(JsNumber(x)) => x != 0.0
  }

  /** The user's and the loader's events, with what the outside world answers. */
  datatype Event =
    | ModelLoaded(ok: bool)
    | StartClicked(camera: CameraOutcome)
    | StopClicked
    | CaptureClicked
    | AnalyzeClicked
    | SaveClicked(isoNow: string, inference: Option<seq<Prediction>>, delivery: Delivery)

  /** What one Save click does to the table, what it alerts, and whether it
      disables Save. */
  datatype SaveOutcome = SaveOutcome(rows: seq<HealthRecord>, alert: Option<string>, disablesSave: bool)

  /** The Save handler against the stored `rows`. It throws before posting
      when `model` is null or `model.predict` throws (`inference` is None). */
  function SaveEffect(rows: seq<HealthRecord>, modelReady: bool, isoNow: string,
                      inference: Option<seq<Prediction>>, delivery: Delivery): (o: SaveOutcome)
    ensures o.alert.Some? <==> modelReady && inference.Some?
    ensures o.rows != rows ==> modelReady && inference.Some? && !delivery.RequestFailed?
    ensures o.disablesSave <==> modelReady && inference.Some? && delivery.Delivered?
    ensures o.alert.Some? && !delivery.RequestFailed? ==>
              o.rows == RunInsert(rows, Symptom(Top1(inference.value)), DetectedAt(isoNow), delivery.dbError).rows
    ensures o.alert.Some? && delivery.Delivered? ==>
              o.alert.value
              == RunInsert(rows, Symptom(Top1(inference.value)), DetectedAt(isoNow), delivery.dbError).response
    ensures o.alert.Some? && !delivery.Delivered? ==> o.alert.value == SaveErrorAlert
  {
    if !modelReady || inference.None? then SaveOutcome(rows, None, false)
    else
      var symptom := Symptom(Top1(inference.value));
      match delivery
      case RequestFailed => SaveOutcome(rows, Some(SaveErrorAlert), false)
      case ResponseLost(dbError) =>
        SaveOutcome(RunInsert(rows, symptom, DetectedAt(isoNow), dbError).rows, Some(SaveErrorAlert), false)
      case Delivered(dbError) =>
        var out := RunInsert(rows, symptom, DetectedAt(isoNow), dbError);
        SaveOutcome(out.rows, Some(out.response), true)
  }

  /** A snapshot of every field of a `Page`. */
  datatype Controls = Controls(
    modelReady: bool, stream: bool, webcam: bool, capturedImage: bool,
    captureDisabled: bool, analyzeDisabled: bool, saveDisabled: bool,
    previewVisible: bool, resultText: string, startCameraText: string)

  class Page {
    var modelReady: bool       // `model` is set
    var stream: bool           // `stream` holds a MediaStream
    var webcam: bool           // `webcam` is set
    var capturedImage: bool    // `capturedImage` holds a data URL
    var captureDisabled: bool
    var analyzeDisabled: bool
    var saveDisabled: bool
    var previewVisible: bool
    var resultText: string
    var startCameraText: string

    ghost function State(): Controls
      reads this
    {
      Controls(modelReady, stream, webcam, capturedImage, captureDisabled, analyzeDisabled,
               saveDisabled, previewVisible, resultText, startCameraText)
    }

    /** What holds after page load and after every event: Save is disabled,
        Capture is enabled only with a stream, Analyze only with a captured
        frame and with Capture enabled. */
    ghost predicate Invariant()
      reads this
    {
      && saveDisabled
      && (!captureDisabled ==> stream)
      && (!analyzeDisabled ==> !captureDisabled && capturedImage)
      && (stream ==> startCameraText == RestartCameraLabel)
    }

    /** The page as loaded: the markup's disabled buttons and texts, and the
        script's null globals. */
    constructor ()
      ensures !modelReady && !stream && !webcam && !capturedImage
      ensures captureDisabled && analyzeDisabled && saveDisabled
      ensures !previewVisible && resultText == ReadyText && startCameraText == StartCameraLabel
      ensures Invariant()
    {
      modelReady, stream, webcam, capturedImage := false, false, false, false;
      captureDisabled, analyzeDisabled, saveDisabled := true, true, true;
      previewVisible := false;
      resultText, startCameraText := ReadyText, StartCameraLabel;
    }

    /** `loadModel`: `model` is set only when loading succeeds. */
    method LoadModel(ok: bool)
      modifies this`modelReady
      ensures State() == old(State()).(modelReady := old(modelReady) || ok)
    {
      if ok {
        modelReady := true;
      }
    }

    /** The Start Camera handler. A denied request leaves `stream` as it was. */
    method StartCamera(camera: CameraOutcome)
      modifies this`stream, this`webcam, this`captureDisabled, this`startCameraText, this`resultText
      ensures camera.Denied? ==> State() == old(State()).(resultText := CameraErrorText)
      ensures camera.Granted? ==>
                State() == old(State()).(stream := true, webcam := old(webcam) || !camera.setup.NotConstructed?,
                                         captureDisabled := false, startCameraText := RestartCameraLabel,
                                         resultText := if camera.setup.Ready? then old(resultText)
                                                       else CameraErrorText)
    {
      match camera
      case Denied =>
        resultText := CameraErrorText;
      case Granted(setup) =>
        stream := true;
        captureDisabled := false;
        startCameraText := RestartCameraLabel;
        if !setup.NotConstructed? {
          webcam := true;
        }
        if !setup.Ready? {
          resultText := CameraErrorText;
        }
    }

    /** The Stop Camera handler. It never clears `stream`, so a second stop
        again reports "Camera stopped."; Save is left alone. */
    method StopCamera()
      modifies this`captureDisabled, this`analyzeDisabled, this`resultText
      ensures State() == if old(stream)
                         then old(State()).(captureDisabled := true, analyzeDisabled := true,
                                            resultText := CameraStoppedText)
                         else old(State()).(resultText := NoStreamText)
    {
      if stream {
        captureDisabled := true;
        analyzeDisabled := true;
        resultText := CameraStoppedText;
      } else {
        resultText := NoStreamText;
      }
    }

    /** The Capture handler: keeps a frame and enables Analyze. */
    method CaptureImage()
      modifies this`capturedImage, this`analyzeDisabled, this`previewVisible, this`resultText
      ensures State() == old(State()).(capturedImage := true, analyzeDisabled := false,
                                       previewVisible := true, resultText := CapturedText)
    {
      capturedImage := true;
      previewVisible := true;
      analyzeDisabled := false;
      resultText := CapturedText;
    }

    /** `analyzeImage`: `resultPrediction` keeps its starting value and is read
        under the misspelt key `classname`, so the automatic save never runs;
        nothing is returned. */
    method AnalyzeImage() returns (returned: Option<seq<Prediction>>, autoSaved: bool)
      modifies this`resultText
      ensures returned == None && !autoSaved
      ensures State() == old(State()).(resultText := if modelReady then AnalyzingText else old(resultText))
    {
      if !modelReady {
        return None, false;
      }
      resultText := AnalyzingText;
      var resultPrediction := NoPrediction;
      autoSaved := JsTruthy(Property(resultPrediction, "classname"));
      returned := None;
    }

    /** The Analyze handler: runs `analyzeImage` twice and enables Save only if
        the second run returned predictions, which it never does. */
    method AnalyzeClick()
      modifies this`resultText, this`previewVisible, this`saveDisabled
      ensures State() == old(State()).(previewVisible := true,
                                       resultText := if modelReady then AnalyzingText else old(resultText))
    {
      var first, firstSaved := AnalyzeImage();
      var predictions, saved := AnalyzeImage();
      previewVisible := true;
      saveDisabled := if predictions.Some? then false else saveDisabled;
    }

    /** The Save handler: predicts again, takes the top-1 entry, derives the
        symptom, posts it with the formatted time and disables Save once the
        response text arrives. */
    method SaveClick(isoNow: string, inference: Option<seq<Prediction>>, delivery: Delivery,
                     server: HealthRecordTable)
      returns (alert: Option<string>)
      modifies this`saveDisabled, server
      ensures var o := SaveEffect(old(server.rows), old(modelReady), isoNow, inference, delivery);
              && server.rows == o.rows && alert == o.alert
              && State() == old(State()).(saveDisabled := old(saveDisabled) || o.disablesSave)
    {
      var detectedAt := DetectedAt(isoNow);
      if !modelReady || inference.None? {
        return None;
      }
      var best := SelectTop1(inference.value);
      var symptom := Symptom(best);
      match delivery
      case RequestFailed =>
        alert := Some(SaveErrorAlert);
      case ResponseLost(dbError) =>
        var response := server.Insert(symptom, detectedAt, dbError);
        alert := Some(SaveErrorAlert);
      case Delivered(dbError) =>
        var response := server.Insert(symptom, detectedAt, dbError);
        alert := Some(response);
        saveDisabled := true;
    }

    /** Routes one event to its handler; clicks on disabled buttons are
        dropped and leave the page and the table as they were. */
    method Dispatch(e: Event, server: HealthRecordTable) returns (alert: Option<string>)
      modifies this, server
      ensures old(Invariant()) ==> Invariant()
      ensures !e.SaveClicked? || old(saveDisabled) ==> alert == None && server.rows == old(server.rows)
      ensures e.ModelLoaded? ==> State() == old(State()).(modelReady := old(modelReady) || e.ok)
      ensures e.StartClicked? && e.camera.Denied? ==> State() == old(State()).(resultText := CameraErrorText)
      ensures e.StartClicked? && e.camera.Granted? ==>
                State() == old(State()).(stream := true, webcam := old(webcam) || !e.camera.setup.NotConstructed?,
                                         captureDisabled := false, startCameraText := RestartCameraLabel,
                                         resultText := if e.camera.setup.Ready? then old(resultText)
                                                       else CameraErrorText)
      ensures e.StopClicked? ==>
                State() == if old(stream)
                           then old(State()).(captureDisabled := true, analyzeDisabled := true,
                                              resultText := CameraStoppedText)
                           else old(State()).(resultText := NoStreamText)
      ensures e.CaptureClicked? ==>
                State() == if old(captureDisabled) then old(State())
                           else old(State()).(capturedImage := true, analyzeDisabled := false,
                                              previewVisible := true, resultText := CapturedText)
      ensures e.AnalyzeClicked? ==>
                State() == if old(analyzeDisabled) then old(State())
                           else old(State()).(previewVisible := true,
                                              resultText := if old(modelReady) then AnalyzingText
                                                            else old(resultText))
      ensures e.SaveClicked? && old(saveDisabled) ==> State() == old(State())
      ensures e.SaveClicked? && !old(saveDisabled) ==>
                var o := SaveEffect(old(server.rows), old(modelReady), e.isoNow, e.inference, e.delivery);
                && server.rows == o.rows && alert == o.alert
                && State() == old(State()).(saveDisabled := o.disablesSave)
    {
      alert := None;
      match e
      case ModelLoaded(ok) =>
        LoadModel(ok);
      case StartClicked(camera) =>
        StartCamera(camera);
      case StopClicked =>
        StopCamera();
      case CaptureClicked =>
        if !captureDisabled {
          CaptureImage();
        }
      case AnalyzeClicked =>
        if !analyzeDisabled {
          AnalyzeClick();
        }
      case SaveClicked(isoNow, inference, delivery) =>
        if !saveDisabled {
          alert := SaveClick(isoNow, inference, delivery, server);
        }
    }
  }

  /** A page load followed by any sequence of events, against a table holding
      `existing`: the Save button is never enabled, so the page never adds a row. */
  method PageSession(events: seq<Event>, existing: seq<HealthRecord>)
    returns (saveEverEnabled: bool, finalRows: seq<HealthRecord>)
    ensures !saveEverEnabled && finalRows == existing
  {
    var page := new Page();
    var server := new HealthRecordTable(existing);
    saveEverEnabled := false;
    for i := 0 to |events|
      invariant page.Invariant()
      invariant server.rows == existing
      invariant !saveEverEnabled
    {
      var alert := page.Dispatch(events[i], server);
      saveEverEnabled := saveEverEnabled || !page.saveDisabled;
    }
    finalRows := server.rows;
  }
}
