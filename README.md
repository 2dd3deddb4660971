# SeekVision `run_inference`: request body and detection post-processing

SeekVision is a Streamlit front end for the DINO-X object-detection service.
Its one piece of self-contained logic sits in `run_inference` (app.py): it
builds the JSON body of the detection request from the user's prompt and
threshold, and it turns the service's list of detected objects into the
arrays handed to the annotators and the JSON summary shown to the user.
This project models that logic and proves what it guarantees.

Modules:

- `PyText` (pytext.dfy): Python's `str.strip()` (no argument, Python 3's
  whitespace set) and `str.lower()` on ASCII letters, and the category
  normalisation `lower().strip()`. `Strip` scans from the left and then from
  the right, as CPython does; `StrippedAt` is an independent description of
  the stripped slice, and `StripBounds`/`StripUnique` show the two agree.
- `ApiRequest` (request.dfy): the request body literal and the rule that
  adds the stripped prompt text only when prompt-free mode is off and the
  prompt is not blank.
- `Detections` (detections.dfy): the normalised class list, the set of
  distinct names, the name-to-id dictionary built by enumerating that set,
  the loop that fills `boxes`, `masks`, `confidences`, `class_names`,
  `class_ids` and `json_result["detections"]`, and the early-return
  decision. Python does not fix the order in which a set is iterated;
  `IterateSet` may pick any order, so every property of the ids is proved
  for all orders: the mapping is a bijection onto `0..k-1` and nothing more
  is promised.
- `Inference` (inference.dfy): `run_inference` end to end, with the
  detection service as a parameter that maps a request body to its answer.
- `Wrappers` (wrappers.dfy): `Option`, for the possibly missing `"objects"`
  key.

Boxes, RLE masks and scores are type parameters: the code copies them and
never looks inside. Mask decoding is a function parameter `decode`.
`Detections.Postprocess` takes the normalisation as a parameter so that its
proof does not depend on how strings are normalised; `Inference.RunInference`
instantiates it with `PyText.Normalize`.

## Model

| member | source | states |
|---|---|---|
| `PyText.SkipSpace` | app.py:49 | the left scan of strip stops at the first non-whitespace character (or the end) and passes only whitespace |
| `PyText.SkipSpaceBack` | app.py:49 | the right scan of strip stops just after the last non-whitespace character at or after the left stop and passes only whitespace |
| `PyText.Strip` | app.py:49-50 | no contract of its own; stated by `StripShape`, `StripBounds` and `StripUnique` |
| `PyText.StripShape` | app.py:49 | the stripped text is no longer than the input, neither starts nor ends with whitespace, and is empty (Python-false) exactly when the input is all whitespace |
| `PyText.StripBounds` | app.py:49-50 | the stripped text is the slice of the input between the first and the last non-whitespace character, with only whitespace outside it |
| `PyText.StripUnique` | app.py:49-50 | any slice with only whitespace outside it and no whitespace at its ends is the strip result: the description determines strip uniquely |
| `PyText.StripIdempotent` | app.py:50 | a stand-alone property of strip: stripping an already stripped text changes nothing |
| `PyText.StripIgnoresPadding` | app.py:49-50 | whitespace added before or after a text does not change its stripped form |
| `PyText.LowerChar` | app.py:63 | the result is never an upper-case ASCII letter; it is a lower-case letter exactly when the input is a letter of either case, and then the same letter of the alphabet; a character is whitespace after lowering exactly when it was before |
| `PyText.Lower` | app.py:63 | no contract of its own; stated by `LowerProperties`, `LowerIdempotent` and `StripLowerCommute` |
| `PyText.LowerProperties` | app.py:63 | lower-casing keeps the length, lowers each A-Z letter, leaves no A-Z letter and changes nothing else |
| `PyText.StripLowerCommute` | app.py:63 | `lower().strip()` equals `strip().lower()` |
| `PyText.Normalize` | app.py:63 | no contract of its own; stated by `NormalizedShape`, `NormalizeIgnoresPadding` and `NormalizeIdempotent` |
| `PyText.NormalizedShape` | app.py:63 | a normalised category has no surrounding whitespace and no upper-case ASCII letter, and is empty exactly when the category is all whitespace |
| `PyText.NormalizeIdempotent` | app.py:63 | a stand-alone property of the normalisation: normalising a normalised name changes nothing, so the names in `classes` are fixed points of `lower().strip()` |
| `PyText.NormalizeIgnoresPadding` | app.py:63 | categories that differ only by surrounding whitespace get the same normalised name |
| `ApiRequest.HasText` | app.py:49 | no contract of its own; `PromptText` states that a sent text is the non-empty stripped prompt exactly when it holds, and `StripShape` that the stripped prompt is empty exactly when the prompt is all whitespace, so together it holds exactly when `text_prompt.strip()` is Python-true |
| `ApiRequest.PromptText` | app.py:48-50 | the prompt text is present if and only if prompt-free mode is off and the prompt holds a non-whitespace character; when present it is the stripped prompt, non-empty and without surrounding whitespace |
| `ApiRequest.BuildApiBody` | app.py:37-50 | the body has model "DINO-X-1.0", prompt type "universal", targets ["bbox", "mask"], mask format "coco_rle", IoU threshold 0.8, the given image and bbox threshold unchanged, and the prompt text given by `PromptText` |
| `ApiRequest.PromptTextIgnoresPadding` | app.py:49-50 | whitespace around the user's prompt never changes what is sent |
| `ApiRequest.PromptTextStable` | app.py:49-50 | a stand-alone property of the prompt rule: re-sending a sent prompt text sends the same text |
| `Detections.Objects` | app.py:60 | no contract of its own; `Postprocess` and `RunInference` state their results in terms of it (a missing key gives the empty list) |
| `Detections.Classes` | app.py:63 | no contract of its own; its contents are stated through `DistinctClasses` by `DistinctClassesExact`, and `AssembleDetections` states the same per-object values `norm(objects[i].category)` for `class_names` |
| `Detections.DistinctClasses` | app.py:64 | no contract of its own; stated by `DistinctClassesExact` and `ClassIdsBijective` |
| `Detections.DistinctClassesExact` | app.py:63-64 | the distinct names are exactly the normalised categories of the returned objects |
| `Detections.IterateSet` | app.py:64 | iterating the set of names yields every name exactly once, in some order |
| `Detections.EnumerationSize` | app.py:64 | an iteration of a set has as many entries as the set has elements, so `enumerate` numbers them 0..k-1 |
| `Detections.ClassNameToId` | app.py:64 | the dictionary's keys are exactly the iterated names, each name maps to its position, and the position leads back to the name |
| `Detections.ClassIdsBijective` | app.py:63-64 | for every iteration order, `class_name_to_id` has the distinct normalised names as keys, its values are exactly 0..k-1 with k the number of distinct names, and it is injective |
| `Detections.IdsFollowNames` | app.py:77-84 | ids looked up by name lie in 0..k-1, and two entries get the same id exactly when their names are equal |
| `Detections.AssembleDetections` | app.py:66-85 | after the loop all five lists and the detection list have one entry per object, in order; entry i holds object i's box, decoded mask, score, normalised category and that category's id, and detection i is built from the same values |
| `Detections.Postprocess` | app.py:60-97 | a missing "objects" key counts as no objects; the mapping is a bijection from the distinct names onto 0..k-1; the lists hold, index by index, the same object's data; ids lie in 0..k-1 and agree exactly when names agree; the annotators run exactly when there is at least one object, so an empty answer yields an empty detection list and the early return |
| `Inference.RunInference` | app.py:36-97 | the body sent has model "DINO-X-1.0", prompt type "universal", targets ["bbox", "mask"], mask format "coco_rle", IoU threshold 0.8, the given image and bbox threshold, and the prompt rule above, and the JSON summary of the answer to that body has one detection per object, in order, with box and score copied, the normalised category as name, an id in 0..k-1 that is shared exactly by detections with the same name, and annotation exactly when objects came back |

## Left out

- The DDS Cloud client, `Config`, `Client`, `V2Task` and `run_task`
  (app.py:32-34, 52-58): network calls into an SDK whose source is not part
  of this model. The service is the parameter `service` of `RunInference`.
- The temporary file and `image_to_base64` (app.py:23-30): file-system I/O
  and an SDK routine. The base64 text is the parameter `imageBase64`.
- `mask_utils.decode` (app.py:75): COCO RLE decoding in pycocotools; modelled
  as the parameter `decode`, applied to each mask and stored unchanged.
- `cv2.imdecode`, the NumPy conversions and the supervision box, label and
  mask annotators (app.py:87-89, 93-94, 99-116): image decoding and drawing
  in foreign libraries. The model returns `annotate`, which says whether
  this drawing happens, instead of an image.
- The label strings `f"{cls} {conf:.2f}"` (app.py:90): floating-point
  formatting.
- Floats: `bbox_threshold`, `0.8` and scores are treated as values copied
  through; thresholds are held as `real`, so binary rounding is not modelled.
- Malformed answers: an object without a "category", "bbox", "mask" or
  "score" key raises KeyError in the source; `RawObject` always has all four.
  An "objects" key that is present but `null` or not a list (a TypeError at
  app.py:63) and a "category" that is not a string (an AttributeError at
  app.py:63) cannot be expressed either: `TaskResult` holds an optional list
  and `RawObject.category` is a string.
- The default `prompt_free=False` (app.py:19): Dafny has no default
  arguments, so `promptFree` is always passed explicitly.
- PyText.Lower: lower-cases only the ASCII letters A-Z; Python's
  `str.lower()` also maps upper-case letters of other scripts, which this
  model leaves unchanged.
- The specific id order produced by iterating a Python `set` (app.py:64):
  not fixed by the language, so only the bijection is stated.
- `main()` (app.py:118-182): the Streamlit page, and hello.py: a watershed
  demonstration made of OpenCV calls.
- A second app variant with corner-size boxes and prompt-derived class ids
  is not part of this model.
