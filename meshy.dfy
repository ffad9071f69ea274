/** Request shaping for the 3D-generation API (utils/meshy_client.py): the
    request bodies of the preview, refine, rigging and animation calls, the
    arguments they refuse, and the status check every response goes
    through. The HTTP exchange is an oracle `post` from the request body to
    the response it gets. */
module Meshy {
  import opened Wrappers
  import opened Json

  /** A response: its status code, its body parsed as JSON (`None` when
      it is not JSON) and its raw text. */
  datatype Response = Response(status: int, json: Option<Value>, text: string)

  /** `MeshyError`, by cause: an error status with the response's details, a
      missing required argument, or a success response without a JSON
      object (where Python fails while reading `resp.json().get`). */
  datatype MeshyError =
    | ApiError(status: int, detail: Value)
    | MissingArgument(message: string)
    | Malformed

  /** The details an error carries: the JSON body, or `{"message": text}`
      when the body is not JSON. */
  function Detail(resp: Response): Value {
    match resp.json
    case Some(j) => j
    case None => Obj(map["message" := Str(resp.text)])
  }

  /** `_raise_for_api_error`: a status of 400 or more raises. */
  function CheckStatus(resp: Response): (r: Result<(), MeshyError>)
    ensures r.Err? <==> resp.status >= 400
    ensures r.Err? ==> r.error == ApiError(resp.status, Detail(resp))
  {
    if resp.status >= 400 then Err(ApiError(resp.status, Detail(resp))) else Ok(())
  }

  /** `resp.json().get("result")` after the status check. */
  function TaskIdOf(resp: Response): (r: Result<Value, MeshyError>)
    ensures resp.status >= 400 ==> r == Err(ApiError(resp.status, Detail(resp)))
    ensures resp.status < 400 && resp.json.Some? && resp.json.value.Obj? ==>
      r == Ok(Get(resp.json.value.fields, "result"))
  {
    if CheckStatus(resp).Err? then Err(CheckStatus(resp).error)
    else match resp.json
      case Some(Obj(m)) => Ok(Get(m, "result"))
      case _ => Err(Malformed)
  }

  /** One create call: the body that was posted (none when an argument
      check failed first) and what the call returns. */
  datatype Call = Call(sent: Option<Dict>, result: Result<Value, MeshyError>)

  /** Post `body` unless building it failed; a failed build sends nothing. */
  function Send(body: Result<Dict, MeshyError>, post: Dict -> Response): (c: Call)
    ensures body.Err? ==> c == Call(None, Err(body.error))
    ensures body.Ok? ==> c.sent == Some(body.value)
    ensures body.Ok? ==> (c.result.Err? && c.result.error.ApiError? <==> post(body.value).status >= 400)
  {
    match body
    case Err(e) => Call(None, Err(e))
    case Ok(b) => Call(Some(b), TaskIdOf(post(b)))
  }

  /** `body.update(payload or {})`: the defaults with every payload key
      written over them. */
  function Overlay(defaults: Dict, payload: Dict): (body: Dict)
    ensures body.Keys == defaults.Keys + payload.Keys
    ensures forall k :: k in payload ==> body[k] == payload[k]
    ensures forall k :: k in defaults && k !in payload ==> body[k] == defaults[k]
  {
    defaults + payload
  }

  // ---- Text to 3D

  const PreviewDefaults: Dict := map[
    "mode" := Str("preview"),
    "ai_model" := Str("latest"),
    "is_a_t_pose" := Bool(true),
    "topology" := Str("quad"),
    "symmetry_mode" := Str("on"),
    "should_remesh" := Bool(true)
  ]

  const RefineDefaults: Dict := map[
    "mode" := Str("refine"),
    "enable_pbr" := Bool(true)
  ]

  function PreviewBody(payload: Dict): Dict {
    Overlay(PreviewDefaults, payload)
  }

  function RefineBody(payload: Dict): Dict {
    Overlay(RefineDefaults, payload)
  }

  /** The preview request is a preview unless the payload says otherwise:
      its mode, like every other default, yields to the payload. */
  lemma PreviewMode(payload: Dict)
    ensures "mode" !in payload ==> PreviewBody(payload)["mode"] == Str("preview")
    ensures "mode" in payload ==> PreviewBody(payload)["mode"] == payload["mode"]
    ensures "should_remesh" !in payload ==> PreviewBody(payload)["should_remesh"] == Bool(true)
  {
  }

  /** The refine request asks for PBR textures unless the payload turns
      them off. */
  lemma RefineMode(payload: Dict)
    ensures "mode" !in payload ==> RefineBody(payload)["mode"] == Str("refine")
    ensures "enable_pbr" !in payload ==> RefineBody(payload)["enable_pbr"] == Bool(true)
    ensures forall k :: k in payload ==> RefineBody(payload)[k] == payload[k]
  {
  }

  /** `create_text_to_3d_preview`. */
  function CreatePreview(payload: Dict, post: Dict -> Response): (c: Call)
    ensures c.sent == Some(PreviewBody(payload))
  {
    Send(Ok(PreviewBody(payload)), post)
  }

  /** `create_text_to_3d_refine`. */
  function CreateRefine(payload: Dict, post: Dict -> Response): (c: Call)
    ensures c.sent == Some(RefineBody(payload))
  {
    Send(Ok(RefineBody(payload)), post)
  }

  // ---- Rigging and animation

  /** A Python optional string that is truthy. */
  predicate Given(s: Option<string>) {
    s.Some? && s.value != ""
  }

  const RiggingMessage: string := "Either input_task_id or model_url is required for rigging."
  const AnimationMessage: string := "rig_task_id is required."

  /** The body of `create_rigging_task`: the height, and each of the task
      id, model URL and texture URL only when given. */
  function RiggingBody(inputTaskId: Option<string>, modelUrl: Option<string>, heightMeters: real, textureUrl: Option<string>)
    : (r: Result<Dict, MeshyError>)
    ensures r.Err? <==> !Given(inputTaskId) && !Given(modelUrl)
    ensures r.Err? ==> r.error == MissingArgument(RiggingMessage)
    ensures r.Ok? ==>
      var b := r.value;
      "height_meters" in b && b["height_meters"] == Real(heightMeters)
      && ("input_task_id" in b <==> Given(inputTaskId))
      && ("model_url" in b <==> Given(modelUrl))
      && ("texture_image_url" in b <==> Given(textureUrl))
      && (Given(inputTaskId) ==> b["input_task_id"] == Str(inputTaskId.value))
      && (Given(modelUrl) ==> b["model_url"] == Str(modelUrl.value))
      && (Given(textureUrl) ==> b["texture_image_url"] == Str(textureUrl.value))
      && b.Keys <= {"height_meters", "input_task_id", "model_url", "texture_image_url"}
  {
    if !Given(inputTaskId) && !Given(modelUrl) then Err(MissingArgument(RiggingMessage))
    else
      var b0: Dict := map["height_meters" := Real(heightMeters)];
      var b1 := if Given(inputTaskId) then b0["input_task_id" := Str(inputTaskId.value)] else b0;
      var b2 := if Given(modelUrl) then b1["model_url" := Str(modelUrl.value)] else b1;
      var b3 := if Given(textureUrl) then b2["texture_image_url" := Str(textureUrl.value)] else b2;
      Ok(b3)
  }

  /** `create_rigging_task`: nothing is posted when neither a task id nor a
      model URL is given. */
  function CreateRigging(inputTaskId: Option<string>, modelUrl: Option<string>, heightMeters: real, textureUrl: Option<string>, post: Dict -> Response)
    : (c: Call)
    ensures c.sent.None? <==> !Given(inputTaskId) && !Given(modelUrl)
    ensures c.sent.None? ==> c.result == Err(MissingArgument(RiggingMessage))
  {
    Send(RiggingBody(inputTaskId, modelUrl, heightMeters, textureUrl), post)
  }

  /** The body of `create_animation_task`: the rig task id and action id,
      and the post-processing options only when they are non-empty. */
  function AnimationBody(rigTaskId: string, actionId: int, postProcess: Option<Dict>): (r: Result<Dict, MeshyError>)
    ensures r.Err? <==> rigTaskId == ""
    ensures r.Err? ==> r.error == MissingArgument(AnimationMessage)
    ensures r.Ok? ==>
      var b := r.value;
      "rig_task_id" in b && b["rig_task_id"] == Str(rigTaskId)
      && "action_id" in b && b["action_id"] == Int(actionId)
      && ("post_process" in b <==> postProcess.Some? && postProcess.value != map[])
      && ("post_process" in b ==> b["post_process"] == Obj(postProcess.value))
      && b.Keys <= {"rig_task_id", "action_id", "post_process"}
  {
    if rigTaskId == "" then Err(MissingArgument(AnimationMessage))
    else
      var b: Dict := map["rig_task_id" := Str(rigTaskId), "action_id" := Int(actionId)];
      if postProcess.Some? && postProcess.value != map[] then Ok(b["post_process" := Obj(postProcess.value)]) else Ok(b)
  }

  /** `create_animation_task`: nothing is posted without a rig task id. */
  function CreateAnimation(rigTaskId: string, actionId: int, postProcess: Option<Dict>, post: Dict -> Response): (c: Call)
    ensures c.sent.None? <==> rigTaskId == ""
    ensures c.sent.None? ==> c.result == Err(MissingArgument(AnimationMessage))
  {
    Send(AnimationBody(rigTaskId, actionId, postProcess), post)
  }

  /** Every create call that posts reports an API error exactly when the
      service answers with status 400 or more. */
  lemma CreateFailsOnErrorStatus(payload: Dict, post: Dict -> Response)
    ensures var c := CreatePreview(payload, post);
      c.result.Err? && c.result.error.ApiError? <==> post(PreviewBody(payload)).status >= 400
    ensures var c := CreateRefine(payload, post);
      c.result.Err? && c.result.error.ApiError? <==> post(RefineBody(payload)).status >= 400
  {
  }
}
