/** The OCR service (src/services/ocrService.ts): one recogniser worker,
    started by Initialize, used by ProcessImage and released by Terminate.
    The recogniser itself is an oracle passed in as a function. */
module Ocr {
  import opened Wrappers
  import opened Types
  import opened JsText
  import Config

  /** An opaque handle on a started recogniser worker. */
  datatype Worker = Worker(id: nat)

  /** The rectangle option handed to the recogniser. */
  datatype Rectangle = Rectangle(top: int, left: int, width: int, height: int)

  /** What the recogniser reports: raw text and its own confidence score. */
  datatype Recognition = Recognition(text: string, confidence: real)

  /** createWorker(lang): starts a worker, or rejects. */
  type WorkerFactory = string -> Result<Worker>

  /** worker.setParameters(options). */
  type ParameterSetter = (Worker, Config.RecognizerOptions) -> Outcome

  /** worker.recognize(image, { rectangle }). */
  type Recognizer = (Worker, Bytes, Option<Rectangle>) -> Result<Recognition>

  /** worker.terminate(). */
  type WorkerStopper = Worker -> Outcome

  const NotInitializedError := "OCR worker not initialized"

  /** The service's fields, as a value. */
  datatype ServiceState = ServiceState(worker: Option<Worker>, isInitialized: bool) {
    /** An initialised service always holds a worker. */
    predicate Consistent() {
      isInitialized ==> worker.Some?
    }

    /** The guard ProcessImage checks. */
    predicate Ready() {
      worker.Some? && isInitialized
    }
  }

  /** The state of a freshly constructed service. */
  const Fresh := ServiceState(None, false)

  /** The recogniser's rectangle for an optional ROI. */
  function RectangleOf(roi: Option<ROI>): Option<Rectangle> {
    match roi
    case None => None
    case Some(r) => Some(Rectangle(r.y, r.x, r.width, r.height))
  }

  /** The new state and outcome of initialize(): nothing happens on an
      initialised service; otherwise a worker is created (a rejection leaves
      the state alone), stored, configured, and only then is the service
      marked initialised. */
  function Initialized(s: ServiceState, create: WorkerFactory, setParameters: ParameterSetter): (ServiceState, Outcome) {
    if s.isInitialized then (s, Pass)
    else
      match create(Config.TesseractConfig.lang)
      case Failure(e) => (s, Fail(e))
      case Success(w) =>
        match setParameters(w, Config.TesseractConfig.options)
        case Fail(e) => (ServiceState(Some(w), s.isInitialized), Fail(e))
        case Pass => (ServiceState(Some(w), true), Pass)
  }

  /** The result of processImage(buffer, roi) in state `s`. */
  function ProcessImageResult(s: ServiceState, buffer: Bytes, roi: Option<ROI>, recognize: Recognizer): Result<OCRResult> {
    if !s.Ready() then Failure(NotInitializedError)
    else
      match recognize(s.worker.value, buffer, RectangleOf(roi))
      case Failure(e) => Failure(e)
      case Success(data) => Success(OCRResult(Trim(data.text), data.confidence, None, roi))
  }

  /** The new state and outcome of terminate(): with no worker nothing
      happens; otherwise the worker is stopped, and only if that succeeds are
      both fields cleared. */
  function Terminated(s: ServiceState, stop: WorkerStopper): (ServiceState, Outcome) {
    match s.worker
    case None => (s, Pass)
    case Some(w) =>
      match stop(w)
      case Fail(e) => (s, Fail(e))
      case Pass => (ServiceState(None, false), Pass)
  }

  /** What getStatus() reports. */
  datatype Status = Status(initialized: bool)

  class OcrService {
    var worker: Option<Worker>
    var isInitialized: bool

    function State(): ServiceState
      reads this
    {
      ServiceState(worker, isInitialized)
    }

    constructor ()
      ensures State() == Fresh
    {
      worker := None;
      isInitialized := false;
    }

    method Initialize(create: WorkerFactory, setParameters: ParameterSetter) returns (outcome: Outcome)
      modifies this
      ensures (State(), outcome) == Initialized(old(State()), create, setParameters)
    {
      if isInitialized {
        return Pass;
      }
      var created := create(Config.TesseractConfig.lang);
      if created.Failure? {
        return Fail(created.error);
      }
      worker := Some(created.value);
      var configured := setParameters(created.value, Config.TesseractConfig.options);
      if configured.Fail? {
        return configured;
      }
      isInitialized := true;
      outcome := Pass;
    }

    method ProcessImage(buffer: Bytes, roi: Option<ROI>, recognize: Recognizer) returns (r: Result<OCRResult>)
      ensures r == ProcessImageResult(State(), buffer, roi, recognize)
    {
      if worker.None? || !isInitialized {
        return Failure(NotInitializedError);
      }
      var rectangle := if roi.Some? then Some(Rectangle(roi.value.y, roi.value.x, roi.value.width, roi.value.height)) else None;
      var data := recognize(worker.value, buffer, rectangle);
      if data.Failure? {
        return Failure(data.error);
      }
      r := Success(OCRResult(Trim(data.value.text), data.value.confidence, None, roi));
    }

    method Terminate(stop: WorkerStopper) returns (outcome: Outcome)
      modifies this
      ensures (State(), outcome) == Terminated(old(State()), stop)
    {
      if worker.Some? {
        var stopped := stop(worker.value);
        if stopped.Fail? {
          return stopped;
        }
        worker := None;
        isInitialized := false;
      }
      outcome := Pass;
    }

    method GetStatus() returns (status: Status)
      ensures status.initialized == isInitialized
    {
      status := Status(isInitialized);
    }
  }

  /** A fresh service is consistent, and every operation keeps it so. */
  lemma ConsistencyPreserved(s: ServiceState, create: WorkerFactory, setParameters: ParameterSetter, stop: WorkerStopper)
    requires s.Consistent()
    ensures Fresh.Consistent()
    ensures Initialized(s, create, setParameters).0.Consistent()
    ensures Terminated(s, stop).0.Consistent()
  {
  }

  /** Initialising an initialised service creates no worker and changes nothing. */
  lemma InitializeIdempotent(s: ServiceState, create: WorkerFactory, setParameters: ParameterSetter)
    requires s.isInitialized
    ensures Initialized(s, create, setParameters) == (s, Pass)
  {
  }

  /** A successful initialisation leaves a ready service holding the created
      worker; a failed one leaves it not ready. */
  lemma InitializeOutcome(s: ServiceState, create: WorkerFactory, setParameters: ParameterSetter)
    requires !s.isInitialized
    ensures var (t, outcome) := Initialized(s, create, setParameters);
      && (outcome.Pass? <==>
            (create(Config.TesseractConfig.lang).Success?
             && setParameters(create(Config.TesseractConfig.lang).value, Config.TesseractConfig.options).Pass?))
      && (outcome.Pass? ==> t.Ready() && t.worker == Some(create(Config.TesseractConfig.lang).value))
      && (outcome.Fail? ==> !t.isInitialized)
  {
  }

  /** processImage refuses to run when the worker is missing or the service
      is not initialised (ProcessImageSuccess covers the other case). */
  lemma ProcessImageGuard(s: ServiceState, buffer: Bytes, roi: Option<ROI>, recognize: Recognizer)
    ensures !s.Ready() ==> ProcessImageResult(s, buffer, roi, recognize) == Failure(NotInitializedError)
  {
  }

  /** On a ready service, processImage returns the recognised text trimmed,
      the confidence unchanged and the given ROI echoed; the recogniser sees
      the ROI's rectangle, or none. */
  lemma ProcessImageSuccess(s: ServiceState, buffer: Bytes, roi: Option<ROI>, recognize: Recognizer)
    requires s.Ready()
    ensures var data := recognize(s.worker.value, buffer, RectangleOf(roi));
      ProcessImageResult(s, buffer, roi, recognize) ==
        match data
        case Failure(e) => Failure(e)
        case Success(d) => Success(OCRResult(Trim(d.text), d.confidence, None, roi))
    ensures roi.None? <==> RectangleOf(roi).None?
    ensures roi.Some? ==> RectangleOf(roi) == Some(Rectangle(roi.value.y, roi.value.x, roi.value.width, roi.value.height))
  {
  }

  /** The text processImage returns carries no surrounding white space. */
  lemma ProcessImageTextTrimmed(s: ServiceState, buffer: Bytes, roi: Option<ROI>, recognize: Recognizer)
    requires ProcessImageResult(s, buffer, roi, recognize).Success?
    ensures var t := ProcessImageResult(s, buffer, roi, recognize).value.text;
      t == [] || (!IsWhiteSpace(t[0]) && !IsWhiteSpace(t[|t| - 1]))
    ensures var t := ProcessImageResult(s, buffer, roi, recognize).value.text;
      Trim(t) == t
  {
    var data := recognize(s.worker.value, buffer, RectangleOf(roi));
    TrimSlice(data.value.text);
    TrimIdempotent(data.value.text);
  }

  /** On a consistent service, a successful terminate clears both fields, so
      a later processImage fails again; with no worker, terminate changes
      nothing; a failed terminate keeps the state. */
  lemma TerminateResets(s: ServiceState, stop: WorkerStopper, buffer: Bytes, roi: Option<ROI>, recognize: Recognizer)
    requires s.Consistent()
    ensures s.worker.None? ==> Terminated(s, stop) == (s, Pass)
    ensures Terminated(s, stop).1.Pass? ==>
      && Terminated(s, stop).0 == Fresh
      && ProcessImageResult(Terminated(s, stop).0, buffer, roi, recognize) == Failure(NotInitializedError)
    ensures Terminated(s, stop).1.Fail? ==> Terminated(s, stop).0 == s
  {
  }

  /** Terminating twice is terminating once, once the first call succeeds. */
  lemma TerminateIdempotent(s: ServiceState, stop: WorkerStopper)
    requires Terminated(s, stop).1.Pass?
    ensures Terminated(Terminated(s, stop).0, stop) == Terminated(s, stop)
  {
  }

  /** The lifecycle the server follows: initialise, use, terminate; after
      that the service refuses to process images. */
  method Lifecycle(create: WorkerFactory, setParameters: ParameterSetter, stop: WorkerStopper,
                   recognize: Recognizer, image: Bytes)
    returns (early: Result<OCRResult>, again: Outcome, before: Result<OCRResult>, after: Result<OCRResult>)
    requires create(Config.TesseractConfig.lang).Success?
    requires setParameters(create(Config.TesseractConfig.lang).value, Config.TesseractConfig.options).Pass?
    requires stop(create(Config.TesseractConfig.lang).value).Pass?
    ensures early == Failure(NotInitializedError)
    ensures again == Pass
    ensures before == ProcessImageResult(ServiceState(Some(create(Config.TesseractConfig.lang).value), true), image, None, recognize)
    ensures after == Failure(NotInitializedError)
  {
    var service := new OcrService();
    early := service.ProcessImage(image, None, recognize);
    var _ := service.Initialize(create, setParameters);
    again := service.Initialize(create, setParameters);
    before := service.ProcessImage(image, None, recognize);
    var _ := service.Terminate(stop);
    var _ := service.Terminate(stop);
    after := service.ProcessImage(image, None, recognize);
  }
}
