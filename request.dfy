/** The request body that run_inference sends to the DINO-X detection
    endpoint (/v2/task/dinox/detection). */
module ApiRequest {
  import opened Wrappers
  import opened PyText

  const ModelName: string := "DINO-X-1.0"
  const PromptType: string := "universal"
  const Targets: seq<string> := ["bbox", "mask"]
  const MaskFormat: string := "coco_rle"
  /** The IoU threshold sent with every request. */
  const IouThreshold: real := 0.8

  /** The "prompt" entry: its type, and the "text" key when present. */
  datatype Prompt = Prompt(kind: string, text: Option<string>)

  /** The JSON body of the detection request. The image is the base64 text
      produced by the client library; thresholds are floats held as reals. */
  datatype ApiBody = ApiBody(
    model: string,
    image: string,
    prompt: Prompt,
    targets: seq<string>,
    maskFormat: string,
    bboxThreshold: real,
    iouThreshold: real)

  /** True when the prompt holds a character that is not whitespace. */
  predicate HasText(textPrompt: string) {
    exists k :: 0 <= k < |textPrompt| && !IsSpace(textPrompt[k])
  }

  /** What the "text" key of the prompt should hold: the stripped prompt, when
      prompt-free mode is off and the prompt is not blank; otherwise nothing. */
  function PromptText(textPrompt: string, promptFree: bool): (t: Option<string>)
    ensures t.Some? <==> !promptFree && HasText(textPrompt)
    ensures t.Some? ==> t.value == Strip(textPrompt) && t.value != []
    ensures t.Some? ==> !IsSpace(t.value[0]) && !IsSpace(t.value[|t.value| - 1])
  {
    StripShape(textPrompt);
    var stripped := Strip(textPrompt);
    if !promptFree && stripped != [] then Some(stripped) else None
  }

  /** Builds the body: the fixed literal, then the prompt text added in place
      when prompt-free mode is off and the stripped prompt is not empty. */
  method BuildApiBody(imageBase64: string, textPrompt: string, bboxThreshold: real, promptFree: bool)
    returns (body: ApiBody)
    ensures body.model == ModelName && body.image == imageBase64
    ensures body.prompt.kind == PromptType
    ensures body.targets == Targets && body.maskFormat == MaskFormat
    ensures body.bboxThreshold == bboxThreshold && body.iouThreshold == IouThreshold
    ensures body.prompt.text == PromptText(textPrompt, promptFree)
  {
    body := ApiBody(
      ModelName, imageBase64, Prompt(PromptType, None),
      Targets, MaskFormat, bboxThreshold, IouThreshold);
    if !promptFree && Strip(textPrompt) != [] {
      body := body.(prompt := body.prompt.(text := Some(Strip(textPrompt))));
    }
  }

  /** Whitespace around the prompt never changes what is sent. */
  lemma PromptTextIgnoresPadding(textPrompt: string, pre: string, post: string, promptFree: bool)
    requires AllSpace(pre) && AllSpace(post)
    ensures PromptText(pre + textPrompt + post, promptFree) == PromptText(textPrompt, promptFree)
  {
    StripIgnoresPadding(textPrompt, pre, post);
  }

  /** Sending the prompt that was sent gives the same prompt text again. */
  lemma PromptTextStable(textPrompt: string)
    requires PromptText(textPrompt, false).Some?
    ensures PromptText(PromptText(textPrompt, false).value, false) == PromptText(textPrompt, false)
  {
    StripIdempotent(textPrompt);
  }
}
