# Face detection tasks of face-api.js, modelled in Dafny

This project models the detection layer of face-api.js's global API
(`src/globalApi/DetectFacesTasks.ts`):

- the entry points `detectAllFaces(input, options?)` and
  `detectSingleFace(input, options?)`, and the task constructor, which all
  default omitted options to a default-constructed `SsdMobilenetv1Options`;
- `DetectAllFacesTask.run`, which picks one detector network from the
  runtime class of its options. It tests `MtcnnOptions` first, then
  `TinyFaceDetectorOptions`, `SsdMobilenetv1Options` and `TinyYolov2Options`,
  and throws for anything else. The MTCNN branch runs the forward pass and
  keeps only the `faceDetection` of each result. The other three branches
  return the network's `locateFaces` result as it is;
- `DetectSingleFaceTask.run`, which runs a fresh all-faces task with the same
  input and options, sorts the detections by ascending score and returns
  element 0, or `undefined` when there are none;
- `withFaceLandmarks(useTinyLandmarkNet = false)` on both task kinds, which
  builds a landmark task around the parent task and the parent's input.

Layout:

- `results.dfy` (module `Results`): `Option` (`None` is JavaScript's `undefined`)
  and `Result` (`Failure` is a rejected promise).
- `faces.dfy` (module `Faces`): detections, MTCNN results, the options classes
  as one datatype with an extra `Unrecognised` constructor for any other
  value, and `Nets`, the record of detector networks.
- `ranking.dfy` (module `Ranking`): the ascending sort by score, the
  single-face selection, and an independent first-minimum scan to compare
  them against.
- `detect_faces_tasks.dfy` (module `DetectFacesTasks`): the tasks, entry
  points, `run` functions, `withFaceLandmarks`, and the lemmas that connect them.

The networks are function-valued fields of `Nets<I>`. Every property is
proved for all `Nets`, so it holds whatever the networks compute. The input
is a type parameter `I`, because the layer only passes it through. A network
may fail with a message, and its failure reaches the caller unchanged as
`BackendFailure(message)`.

The single-face task returns the LOWEST-scoring detection. An ascending sort
followed by element 0 does exactly that. The model keeps this behaviour,
and `SingleFacePicksLowestScore` pins it down on the scores 0.9, 0.3 and 0.6.
`Array.prototype.sort` is stable, so among equal lowest scores the earliest
detection wins. `Ranking.StableSortIsUnique` shows that every stable
ascending sort gives the same output as `Ranking.SortByScore`.

For options of no recognised class, the code throws a plain `Error` whose
message lists the four classes (`src/globalApi/DetectFacesTasks.ts:60`). The
model fails with `UnsupportedOptions(UnsupportedOptionsMessage)`, which
carries that exact message.

## Model

| member | source | states |
|---|---|---|
| DetectFacesTasks.WithDefaultOptions | src/globalApi/DetectFacesTasks.ts:13-34 | the defaulting shared by both entry points and the task constructor: given options are kept, and omitted ones become SSD MobileNet v1 options with no arguments |
| DetectFacesTasks.NewDetectAllFacesTask | src/globalApi/DetectFacesTasks.ts:27-34 | the task keeps the given input; given options are kept as they are, and omitted options become SSD MobileNet v1 options with no arguments |
| DetectFacesTasks.NewDetectSingleFaceTask | src/globalApi/DetectFacesTasks.ts:27-34 | the same defaulting for the single-face task: the given input and options are kept, and omitted options become default SSD MobileNet v1 options |
| DetectFacesTasks.DetectAllFaces | src/globalApi/DetectFacesTasks.ts:20-25 | the entry point builds the same task as the constructor would for the same arguments, because both apply the same default |
| DetectFacesTasks.DetectSingleFace | src/globalApi/DetectFacesTasks.ts:13-18 | the single-face entry point builds the same task as the constructor would for the same arguments |
| DetectFacesTasks.FaceDetections | src/globalApi/DetectFacesTasks.ts:43-44 | the MTCNN projection has the same length as the forward result, and element i is the detection of result i |
| DetectFacesTasks.FaceDetectionsAppend | src/globalApi/DetectFacesTasks.ts:43-44 | the projection preserves order: projecting a concatenation concatenates the projections |
| DetectFacesTasks.MtcnnIgnoresLandmarks | src/globalApi/DetectFacesTasks.ts:43-44 | MTCNN results that agree on their detections project to the same list, so the landmarks have no effect |
| DetectFacesTasks.RunAllFacesDispatch | src/globalApi/DetectFacesTasks.ts:38-64 | each recognised options class runs its own network on the task's input and the options' arguments; MTCNN returns the projected forward result and the other three return the locateFaces result unchanged; network errors pass through; unrecognised options fail with the unsupported-options message |
| DetectFacesTasks.RunAllFacesUsesOnlySelectedNet | src/globalApi/DetectFacesTasks.ts:42-63 | two network sets that give the same answer for the selected network give the same run outcome, so no other network takes part; with unrecognised options, no network takes part |
| DetectFacesTasks.RunAllFaces | src/globalApi/DetectFacesTasks.ts:38-64 | a run fails with the unsupported-options error exactly when the options are of no recognised class, and that error carries the message thrown at line 60 |
| DetectFacesTasks.LocateFacesFunction | src/globalApi/DetectFacesTasks.ts:47-59 | for options that are not MTCNN options, no locateFaces call is chosen (the null at line 55) exactly when the options are of no recognised class |
| DetectFacesTasks.LocateFacesFunctionCallsItsNet | src/globalApi/DetectFacesTasks.ts:47-57 | the chosen call, applied to an input, runs the network of the options' own class with that input and the options' arguments |
| DetectFacesTasks.DefaultOptionsRunSsdMobilenetv1 | src/globalApi/DetectFacesTasks.ts:13-25 | with options omitted, both entry points run the SSD MobileNet v1 network with no arguments, and single face selects from its result |
| DetectFacesTasks.RunSingleFace | src/globalApi/DetectFacesTasks.ts:74-77 | when the all-faces run with the same input and options fails, the single-face run fails with the same error; when it succeeds, the single-face run succeeds, returns nothing exactly when no face was found, and otherwise returns one of those detections whose score is no higher than any other's |
| DetectFacesTasks.RunSingleFaceSelectsFirstMinimum | src/globalApi/DetectFacesTasks.ts:75-76 | when the all-faces run finds faces, the single-face result is the first lowest-scoring of them |
| DetectFacesTasks.RunSingleFaceNoFace | src/globalApi/DetectFacesTasks.ts:75-76 | when the all-faces run finds no face, the single-face run succeeds with nothing instead of failing |
| DetectFacesTasks.RunSingleFaceUnsupported | src/globalApi/DetectFacesTasks.ts:75-76 | a single-face task with unrecognised options fails with the unsupported-options error |
| DetectFacesTasks.SingleFacePicksLowestScore | src/globalApi/DetectFacesTasks.ts:76 | for detections scoring 0.9, 0.3 and 0.6, single face returns the one scoring 0.3 |
| DetectFacesTasks.AllFacesWithFaceLandmarks | src/globalApi/DetectFacesTasks.ts:66-68 | the landmark task wraps the all-faces task itself, with that task's unchanged input and the given network flag |
| DetectFacesTasks.SingleFaceWithFaceLandmarks | src/globalApi/DetectFacesTasks.ts:79-81 | the landmark task wraps the single-face task itself, with that task's unchanged input and the given network flag |
| DetectFacesTasks.WithFaceLandmarksDefaultsToFullNet | src/globalApi/DetectFacesTasks.ts:66 | called without an argument, withFaceLandmarks on either task kind selects the full landmark network, not the tiny one |
| Ranking.Insert | src/globalApi/DetectFacesTasks.ts:76 | inserting into a score-sorted list keeps it sorted, and adds exactly the inserted detection |
| Ranking.SortByScore | src/globalApi/DetectFacesTasks.ts:76 | the sort returns the same detections with the same multiplicities, in ascending order of score |
| Ranking.SortByScoreIsStable | src/globalApi/DetectFacesTasks.ts:76 | for every score, the detections with that score keep their input order after sorting |
| Ranking.StableSortIsUnique | src/globalApi/DetectFacesTasks.ts:76 | any sorted list that keeps every score class in input order equals SortByScore, so every stable ascending sort agrees with it |
| Ranking.SelectSingleFace | src/globalApi/DetectFacesTasks.ts:76 | the selection is empty exactly when there are no detections; otherwise it is one of the detections, and its score is no higher than any other's |
| Ranking.FirstMinIndex | src/globalApi/DetectFacesTasks.ts:76 | reference scan: the position of the first detection whose score is no higher than any other's and strictly lower than every earlier one |
| Ranking.FirstMinimumUnique | src/globalApi/DetectFacesTasks.ts:76 | at most one position is the first minimum |
| Ranking.SortByScoreHeadIsFirstMinimum | src/globalApi/DetectFacesTasks.ts:76 | element 0 of the ascending sort is the detection at the first-minimum position |
| Ranking.SelectSingleFaceIsFirstMinimum | src/globalApi/DetectFacesTasks.ts:76 | for a non-empty list, the selection is the detection at the first-minimum position |

## Left out

- Detector networks (`nets.mtcnn.forward`, `nets.*.locateFaces`): these run neural-network inference in code that is not part of this model. They are the function-valued fields of `Nets`.
- Promises and `ComposableTask`: `run` is a pure function. Awaiting a task, as line 75 does with the all-faces task object, is modelled as running it. Because each evaluation recomputes the chain, results are never memoized. Whether a network raises its error synchronously or as a rejection is not distinguished.
- Failure propagation through `await` at line 75: the model treats awaiting the all-faces task as running it, so its failure becomes the single-face task's failure. How `ComposableTask` makes a task awaitable, including how it passes on a rejection, is not part of this model.
- Landmark tasks (`DetectAllFaceLandmarksTask`, `DetectSingleFaceLandmarksTask`): their `run` and further chaining live in `DetectFacesLandmarksTasks.ts`, which is not part of this model. Only the arguments `withFaceLandmarks` passes to their constructors are modelled.
- Options class hierarchy: the options classes are defined in files that are not part of this model. Each options value has exactly one of the four classes or none of them. If one class extended another, the order of the `instanceof` tests could matter beyond "MTCNN first"; that is not modelled.
- Options defaults and validation: the options classes are in files that are not part of this model. The model carries only the arguments an options object was constructed with. It does not represent the default values a class fills in for omitted fields, nor its range checks, which can throw. As a result, `SsdMobilenetv1Options({})` and `SsdMobilenetv1Options({minConfidence: 0.5})` are different options in the model even where the program treats them the same.
- Input and detection geometry: the input is an opaque type parameter, and a detection's box is carried but never inspected.
- Floating point: scores are exact reals with a total order. NaN scores, and the comparator's subtraction with rounding, are not modelled.
- In-place sorting: the all-faces result is a fresh array, so sorting it in place has no visible effect beyond the returned element.
