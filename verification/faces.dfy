/** The values the detection tasks pass around: detections, MTCNN results,
    detector options and the set of detector networks.

    Images, tensors and the networks themselves are opaque here: the input is
    a type parameter `I` that is only ever passed through, and every network
    is a function-valued field of `Nets`, so that a property proved for all
    `Nets` holds whatever the networks compute.
 */
module Faces {
  import opened Results

  datatype Point = Point(x: real, y: real)

  /** Bounding geometry of a detection; this layer never reads or builds it. */
  datatype Box = Box(x: real, y: real, width: real, height: real)

  /** A located face: its confidence score (higher is more confident) and where it is. */
  datatype Detection = Detection(score: real, box: Box)

  /** Facial keypoints as produced by a landmark network. */
  datatype Landmarks = Landmarks(positions: seq<Point>)

  /** One result of the MTCNN forward pass: a detection paired with the
      five-point landmarks MTCNN computes along with it. */
  datatype MtcnnResult = MtcnnResult(faceDetection: Detection, faceLandmarks: Landmarks)

  /** A value passed to an options constructor: a number or a list of numbers
      (MTCNN takes per-stage score thresholds and scale steps as lists). */
  datatype ArgValue = Number(n: real) | Numbers(ns: seq<real>)

  /** The object literal an options class was constructed from. Only these
      arguments are carried: the default values the class fills in for
      omitted fields, and its checks on their ranges, are not represented. */
  type Args = map<string, ArgValue>

  /** The runtime value of a task's `options`. The four classes the task
      recognises carry their constructor arguments; `Unrecognised` is any
      other value (a plain object, `null`, an instance of some other class). */
  datatype DetectorOptions =
    | MtcnnOptions(args: Args)
    | TinyFaceDetectorOptions(args: Args)
    | SsdMobilenetv1Options(args: Args)
    | TinyYolov2Options(args: Args)
    | Unrecognised

  /** `new SsdMobilenetv1Options()`: the SSD class constructed with no arguments. */
  const DefaultOptions: DetectorOptions := SsdMobilenetv1Options(map[])

  /** The detector networks. Each takes the input and the options' arguments
      and either yields its result or fails with an error message. */
  datatype Nets<!I> = Nets(
    mtcnnForward: (I, Args) -> Result<seq<MtcnnResult>, string>,
    tinyFaceDetectorLocateFaces: (I, Args) -> Result<seq<Detection>, string>,
    ssdMobilenetv1LocateFaces: (I, Args) -> Result<seq<Detection>, string>,
    tinyYolov2LocateFaces: (I, Args) -> Result<seq<Detection>, string>
  )
}
