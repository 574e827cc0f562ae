/** The face detection tasks: the `detectAllFaces` / `detectSingleFace`
    entry points, the all-faces task that picks one detector network from the
    runtime class of its options, the single-face task that reduces the
    all-faces result to one detection, and the `withFaceLandmarks` chaining
    step.

    A task's `run` is modelled as a pure function of the networks and the
    task; awaiting a task is applying that function, so every run recomputes
    the whole chain. A rejected promise is a `Failure`.
 */
module DetectFacesTasks {
  import opened Results
  import opened Faces
  import opened Ranking

  /** The message of the error thrown for options of no recognised class. */
  const UnsupportedOptionsMessage: string :=
    "detectFaces - expected options to be instance of TinyFaceDetectorOptions | SsdMobilenetv1Options | MtcnnOptions | TinyYolov2Options"

  /** Why a run failed: options of an unrecognised class, or an error raised
      by the network that was called, passed on unchanged. */
  datatype DetectError = UnsupportedOptions(message: string) | BackendFailure(reason: string)

  datatype DetectAllFacesTask<I> = DetectAllFacesTask(input: I, options: DetectorOptions)

  datatype DetectSingleFaceTask<I> = DetectSingleFaceTask(input: I, options: DetectorOptions)

  /** A landmark task as constructed by `withFaceLandmarks`: the parent task,
      the parent's input, and which landmark network to use. */
  datatype DetectAllFaceLandmarksTask<I> =
    DetectAllFaceLandmarksTask(parentTask: DetectAllFacesTask<I>, input: I, useTinyLandmarkNet: bool)

  datatype DetectSingleFaceLandmarksTask<I> =
    DetectSingleFaceLandmarksTask(parentTask: DetectSingleFaceTask<I>, input: I, useTinyLandmarkNet: bool)

  /** The options a task ends up with when the caller passes `options`;
      `None` is an omitted (undefined) argument. */
  function WithDefaultOptions(options: Option<DetectorOptions>): (r: DetectorOptions)
    ensures options.Some? ==> r == options.value
    ensures options.None? ==> r.SsdMobilenetv1Options? && r.args == map[]
  {
    match options
    case Some(given) => given
    case None => DefaultOptions
  }

  /** `new DetectAllFacesTask(input, options?)`. */
  function NewDetectAllFacesTask<I>(input: I, options: Option<DetectorOptions> := None): (r: DetectAllFacesTask<I>)
    ensures r.input == input
    ensures options.Some? ==> r.options == options.value
    ensures options.None? ==> r.options.SsdMobilenetv1Options? && r.options.args == map[]
  {
    DetectAllFacesTask(input, WithDefaultOptions(options))
  }

  /** `new DetectSingleFaceTask(input, options?)`. */
  function NewDetectSingleFaceTask<I>(input: I, options: Option<DetectorOptions> := None): (r: DetectSingleFaceTask<I>)
    ensures r.input == input
    ensures options.Some? ==> r.options == options.value
    ensures options.None? ==> r.options.SsdMobilenetv1Options? && r.options.args == map[]
  {
    DetectSingleFaceTask(input, WithDefaultOptions(options))
  }

  /** The `detectAllFaces(input, options?)` entry point. */
  function DetectAllFaces<I>(input: I, options: Option<DetectorOptions> := None): (r: DetectAllFacesTask<I>)
    ensures r == NewDetectAllFacesTask(input, options)
  {
    NewDetectAllFacesTask(input, Some(WithDefaultOptions(options)))
  }

  /** The `detectSingleFace(input, options?)` entry point. */
  function DetectSingleFace<I>(input: I, options: Option<DetectorOptions> := None): (r: DetectSingleFaceTask<I>)
    ensures r == NewDetectSingleFaceTask(input, options)
  {
    NewDetectSingleFaceTask(input, Some(WithDefaultOptions(options)))
  }

  /** A network's outcome as the task's outcome: its error becomes a
      `BackendFailure` with the same message. */
  function FromBackend<T>(outcome: Result<T, string>): (r: Result<T, DetectError>) {
    match outcome
    case Success(v) => Success(v)
    case Failure(reason) => Failure(BackendFailure(reason))
  }

  /** The detection of every MTCNN result, in order; the landmarks MTCNN
      computed along with them are dropped. */
  function FaceDetections(results: seq<MtcnnResult>): (r: seq<Detection>)
    ensures |r| == |results|
    ensures forall i :: 0 <= i < |results| ==> r[i] == results[i].faceDetection
  {
    if |results| == 0 then []
    else [results[0].faceDetection] + FaceDetections(results[1..])
  }

  /** The `locateFaces` call chosen for options that are not MTCNN options,
      tested class by class; `None` (JavaScript's `null`) when no class matches. */
  function LocateFacesFunction<I>(nets: Nets<I>, options: DetectorOptions): (r: Option<I -> Result<seq<Detection>, string>>)
    requires !options.MtcnnOptions?
    ensures r.None? <==> options.Unrecognised?
  {
    if options.TinyFaceDetectorOptions? then
      var args := options.args;
      Some((input: I) => nets.tinyFaceDetectorLocateFaces(input, args))
    else if options.SsdMobilenetv1Options? then
      var args := options.args;
      Some((input: I) => nets.ssdMobilenetv1LocateFaces(input, args))
    else if options.TinyYolov2Options? then
      var args := options.args;
      Some((input: I) => nets.tinyYolov2LocateFaces(input, args))
    else
      None
  }

  /** The chosen call, applied to an input, calls the network of the
      options' class with that input and the options' arguments. */
  lemma LocateFacesFunctionCallsItsNet<I>(nets: Nets<I>, options: DetectorOptions, input: I)
    requires !options.MtcnnOptions? && !options.Unrecognised?
    ensures options.TinyFaceDetectorOptions? ==>
      LocateFacesFunction(nets, options).value(input) == nets.tinyFaceDetectorLocateFaces(input, options.args)
    ensures options.SsdMobilenetv1Options? ==>
      LocateFacesFunction(nets, options).value(input) == nets.ssdMobilenetv1LocateFaces(input, options.args)
    ensures options.TinyYolov2Options? ==>
      LocateFacesFunction(nets, options).value(input) == nets.tinyYolov2LocateFaces(input, options.args)
  {
  }

  /** `DetectAllFacesTask.run`: MTCNN options are tested first and run the
      MTCNN forward pass, keeping only the detections; the other three
      classes run their network's `locateFaces`; anything else fails. */
  function RunAllFaces<I>(nets: Nets<I>, task: DetectAllFacesTask<I>): (r: Result<seq<Detection>, DetectError>)
    ensures (r.Failure? && r.error.UnsupportedOptions?) <==> task.options.Unrecognised?
    ensures r.Failure? && r.error.UnsupportedOptions? ==> r.error.message == UnsupportedOptionsMessage
  {
    var input := task.input;
    var options := task.options;
    if options.MtcnnOptions? then
      match nets.mtcnnForward(input, options.args)
      case Success(results) => Success(FaceDetections(results))
      case Failure(reason) => Failure(BackendFailure(reason))
    else
      var faceDetectionFunction := LocateFacesFunction(nets, options);
      if faceDetectionFunction.None? then
        Failure(UnsupportedOptions(UnsupportedOptionsMessage))
      else
        FromBackend(faceDetectionFunction.value(input))
  }

  /** `DetectSingleFaceTask.run`: runs a fresh all-faces task with the same
      input and options, sorts its detections by ascending score and takes
      element 0, which is the LOWEST-scoring detection. */
  function RunSingleFace<I>(nets: Nets<I>, task: DetectSingleFaceTask<I>): (r: Result<Option<Detection>, DetectError>)
    ensures var all := RunAllFaces(nets, DetectAllFacesTask(task.input, task.options));
      && (all.Failure? ==> r == Failure(all.error))
      && (all.Success? ==> r.Success? && (r.value.None? <==> |all.value| == 0))
      && (all.Success? && r.Success? && r.value.Some? ==>
            && r.value.value in all.value
            && forall j :: 0 <= j < |all.value| ==> r.value.value.score <= all.value[j].score)
  {
    match RunAllFaces(nets, DetectAllFacesTask(task.input, task.options))
    case Failure(e) => Failure(e)
    case Success(detections) => Success(SelectSingleFace(detections))
  }

  /** `DetectAllFacesTask.withFaceLandmarks(useTinyLandmarkNet = false)`. */
  function AllFacesWithFaceLandmarks<I>(task: DetectAllFacesTask<I>, useTinyLandmarkNet: bool := false): (r: DetectAllFaceLandmarksTask<I>)
    ensures r.parentTask == task
    ensures r.input == task.input
    ensures r.useTinyLandmarkNet == useTinyLandmarkNet
  {
    DetectAllFaceLandmarksTask(task, task.input, useTinyLandmarkNet)
  }

  /** `DetectSingleFaceTask.withFaceLandmarks(useTinyLandmarkNet = false)`. */
  function SingleFaceWithFaceLandmarks<I>(task: DetectSingleFaceTask<I>, useTinyLandmarkNet: bool := false): (r: DetectSingleFaceLandmarksTask<I>)
    ensures r.parentTask == task
    ensures r.input == task.input
    ensures r.useTinyLandmarkNet == useTinyLandmarkNet
  {
    DetectSingleFaceLandmarksTask(task, task.input, useTinyLandmarkNet)
  }

  // ---------------------------------------------------------------------
  // Properties
  // ---------------------------------------------------------------------

  /** Each recognised options class runs exactly the network of its class,
      with the task's input and the options' arguments, and returns that
      network's detections unchanged (for MTCNN: the detection of each
      result); any other options value fails with the unsupported-options
      error. */
  lemma RunAllFacesDispatch<I>(nets: Nets<I>, task: DetectAllFacesTask<I>)
    ensures task.options.MtcnnOptions? ==>
      match nets.mtcnnForward(task.input, task.options.args)
      case Success(results) => RunAllFaces(nets, task) == Success(FaceDetections(results))
      case Failure(reason) => RunAllFaces(nets, task) == Failure(BackendFailure(reason))
    ensures task.options.TinyFaceDetectorOptions? ==>
      RunAllFaces(nets, task) == FromBackend(nets.tinyFaceDetectorLocateFaces(task.input, task.options.args))
    ensures task.options.SsdMobilenetv1Options? ==>
      RunAllFaces(nets, task) == FromBackend(nets.ssdMobilenetv1LocateFaces(task.input, task.options.args))
    ensures task.options.TinyYolov2Options? ==>
      RunAllFaces(nets, task) == FromBackend(nets.tinyYolov2LocateFaces(task.input, task.options.args))
    ensures task.options.Unrecognised? ==>
      RunAllFaces(nets, task) == Failure(UnsupportedOptions(UnsupportedOptionsMessage))
  {
  }

  /** `n1` and `n2` give the same answer for the one network that `options`
      selects, on this input; nothing is required of the other networks. */
  ghost predicate SameSelectedAnswer<I>(n1: Nets<I>, n2: Nets<I>, input: I, options: DetectorOptions) {
    match options
    case MtcnnOptions(args) => n1.mtcnnForward(input, args) == n2.mtcnnForward(input, args)
    case TinyFaceDetectorOptions(args) => n1.tinyFaceDetectorLocateFaces(input, args) == n2.tinyFaceDetectorLocateFaces(input, args)
    case SsdMobilenetv1Options(args) => n1.ssdMobilenetv1LocateFaces(input, args) == n2.ssdMobilenetv1LocateFaces(input, args)
    case TinyYolov2Options(args) => n1.tinyYolov2LocateFaces(input, args) == n2.tinyYolov2LocateFaces(input, args)
    case Unrecognised => true
  }

  /** No network other than the selected one takes part in a run: replacing
      every other network leaves the outcome unchanged, and with
      unrecognised options no network takes part at all. */
  lemma RunAllFacesUsesOnlySelectedNet<I>(n1: Nets<I>, n2: Nets<I>, task: DetectAllFacesTask<I>)
    requires SameSelectedAnswer(n1, n2, task.input, task.options)
    ensures RunAllFaces(n1, task) == RunAllFaces(n2, task)
  {
  }

  /** The MTCNN projection keeps order: it maps a concatenation to the
      concatenation of the projections. */
  lemma FaceDetectionsAppend(a: seq<MtcnnResult>, b: seq<MtcnnResult>)
    ensures FaceDetections(a + b) == FaceDetections(a) + FaceDetections(b)
  {
  }

  /** The MTCNN branch ignores the landmarks of the forward pass: two
      forward results with the same detections give the same run outcome. */
  lemma MtcnnIgnoresLandmarks(results1: seq<MtcnnResult>, results2: seq<MtcnnResult>)
    requires |results1| == |results2|
    requires forall i :: 0 <= i < |results1| ==> results1[i].faceDetection == results2[i].faceDetection
    ensures FaceDetections(results1) == FaceDetections(results2)
  {
  }

  /** With options omitted, both entry points run the SSD MobileNet v1
      network on a default-constructed options object. */
  lemma DefaultOptionsRunSsdMobilenetv1<I>(nets: Nets<I>, input: I)
    ensures RunAllFaces(nets, DetectAllFaces(input)) == FromBackend(nets.ssdMobilenetv1LocateFaces(input, map[]))
    ensures RunSingleFace(nets, DetectSingleFace(input)) ==
      match nets.ssdMobilenetv1LocateFaces(input, map[])
      case Success(detections) => Success(SelectSingleFace(detections))
      case Failure(reason) => Failure(BackendFailure(reason))
  {
  }

  /** When the all-faces run on the same input and options finds faces, a
      single-face run yields the first lowest-scoring one of them. */
  lemma RunSingleFaceSelectsFirstMinimum<I>(nets: Nets<I>, task: DetectSingleFaceTask<I>, detections: seq<Detection>)
    requires RunAllFaces(nets, DetectAllFacesTask(task.input, task.options)) == Success(detections)
    requires |detections| > 0
    ensures RunSingleFace(nets, task) == Success(Some(detections[FirstMinIndex(detections)]))
  {
    SelectSingleFaceIsFirstMinimum(detections);
  }

  /** When the all-faces run on the same input and options finds no face, a
      single-face run yields nothing and does not fail. */
  lemma RunSingleFaceNoFace<I>(nets: Nets<I>, task: DetectSingleFaceTask<I>)
    requires RunAllFaces(nets, DetectAllFacesTask(task.input, task.options)) == Success([])
    ensures RunSingleFace(nets, task) == Success(None)
  {
  }

  /** A single-face task with unrecognised options fails with the same
      error as the all-faces task. */
  lemma RunSingleFaceUnsupported<I>(nets: Nets<I>, task: DetectSingleFaceTask<I>)
    requires task.options.Unrecognised?
    ensures RunSingleFace(nets, task) == Failure(UnsupportedOptions(UnsupportedOptionsMessage))
  {
  }

  /** With detections scoring 0.9, 0.3 and 0.6 the single-face task picks
      the one scoring 0.3: the lowest, not the highest. */
  lemma SingleFacePicksLowestScore<I>(nets: Nets<I>, input: I, args: Args, box: Box)
    requires nets.ssdMobilenetv1LocateFaces(input, args) ==
      Success([Detection(0.9, box), Detection(0.3, box), Detection(0.6, box)])
    ensures RunSingleFace(nets, DetectSingleFace(input, Some(SsdMobilenetv1Options(args)))) ==
      Success(Some(Detection(0.3, box)))
  {
    var ds := [Detection(0.9, box), Detection(0.3, box), Detection(0.6, box)];
    SelectSingleFaceIsFirstMinimum(ds);
    assert FirstMinIndex(ds[2..]) == 0;
    assert FirstMinIndex(ds[1..]) == 0;
  }

  /** `withFaceLandmarks()` without an argument selects the full landmark
      network, on both task kinds. */
  lemma WithFaceLandmarksDefaultsToFullNet<I>(all: DetectAllFacesTask<I>, single: DetectSingleFaceTask<I>)
    ensures !AllFacesWithFaceLandmarks(all).useTinyLandmarkNet
    ensures !SingleFaceWithFaceLandmarks(single).useTinyLandmarkNet
  {
  }
}
