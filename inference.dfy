/** run_inference as a whole: build the request body, hand it to the
    detection service, and turn the answer into the JSON summary. The
    service, the image encoding and the drawing are outside the model: the
    service is a parameter that maps each body to its answer. */
module Inference {
  import opened PyText
  import opened ApiRequest
  import opened Detections

  method RunInference<B, M, G, S>(imageBase64: string, textPrompt: string, bboxThreshold: real,
                                  promptFree: bool, service: ApiBody -> TaskResult<B, M, S>,
                                  decode: M -> G)
    returns (body: ApiBody, json: JsonResult<B, S>, annotate: bool)
    ensures body.model == ModelName && body.image == imageBase64
    ensures body.prompt.kind == PromptType
    ensures body.targets == Targets && body.maskFormat == MaskFormat
    ensures body.bboxThreshold == bboxThreshold && body.iouThreshold == IouThreshold
    ensures body.prompt.text == PromptText(textPrompt, promptFree)
    ensures var objects := Objects(service(body));
      && |json.detections| == |objects|
      && (forall i :: 0 <= i < |objects| ==>
            && json.detections[i].bbox == objects[i].bbox
            && json.detections[i].categoryName == Normalize(objects[i].category)
            && json.detections[i].score == objects[i].score
            && 0 <= json.detections[i].categoryId < |DistinctClasses(objects, Normalize)|)
    ensures forall i, j :: 0 <= i < |json.detections| && 0 <= j < |json.detections| ==>
      (json.detections[i].categoryId == json.detections[j].categoryId
       <==> json.detections[i].categoryName == json.detections[j].categoryName)
    ensures annotate <==> Objects(service(body)) != []
  {
    body := BuildApiBody(imageBase64, textPrompt, bboxThreshold, promptFree);
    var result := service(body);
    var boxes, masks, confidences, classNames, classIds, classNameToId;
    boxes, masks, confidences, classNames, classIds, classNameToId, json, annotate :=
      Postprocess(result, Normalize, decode);
  }
}
