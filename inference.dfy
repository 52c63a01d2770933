/**
 * Queueing a prompt on the backend: the request body, the message taken
 * from an error payload, and the result reported for each outcome of the
 * request. The request itself is an outcome passed in.
 */
module Inference {
  import opened Wrappers
  import opened Json
  import Text

  /** The message of an error payload: `error` itself when a string, else `error.message` when a string. */
  function ExtractErrorMessage(payload: Json): (r: Option<string>)
    ensures !IsRecord(payload) ==> r.None?
    ensures Get(payload, "error").JString? ==> r == Some(Get(payload, "error").s)
    ensures !Get(payload, "error").JString? ==> r == GetString(Get(payload, "error"), "message")
  {
    if !IsRecord(payload) then None
    else
      var errorValue := Get(payload, "error");
      if errorValue.JString? then Some(errorValue.s)
      else if IsRecord(errorValue) then
        match GetString(errorValue, "message")
        case Some(message) => Some(message)
        case None => None
      else None
  }

  /** A message is found only in a string `error` or a string `error.message` of an object payload. */
  lemma ExtractErrorMessageSources(payload: Json)
    ensures ExtractErrorMessage(payload).Some? <==>
      payload.JObject? && (Get(payload, "error").JString? || Get(Get(payload, "error"), "message").JString?)
  {
    RecordIsArrayOrObject(payload);
  }

  /** The `extra_data` of a request: the client id, and the workflow when there is one. */
  method BuildExtraData(clientId: string, workflow: Json) returns (extraData: Json)
    ensures extraData.JObject?
    ensures Get(extraData, "client_id") == JString(clientId)
    ensures "extra_pnginfo" in extraData.fields <==> Truthy(workflow)
    ensures Truthy(workflow) ==> Get(extraData, "extra_pnginfo") == JObject(map["workflow" := workflow])
    ensures extraData.fields.Keys <= {"client_id", "extra_pnginfo"}
  {
    var fields := map["client_id" := JString(clientId)];
    if Truthy(workflow) {
      fields := fields["extra_pnginfo" := JObject(map["workflow" := workflow])];
    }
    return JObject(fields);
  }

  /**
   * What the request produced: no answer, or a response with its status and
   * its body (null when not JSON). For an HTTP response `ok` holds exactly
   * when the status is in 200-299 (ResponseConsistent); the outcome depends
   * only on `ok`, so the model does not need that relation.
   */
  datatype Transport = Unreachable | Responded(ok: bool, status: nat, payload: Json)

  /** `ok` as the Fetch standard defines it: the status is in the range 200-299. */
  predicate ResponseConsistent(t: Transport) {
    t.Responded? ==> (t.ok <==> 200 <= t.status <= 299)
  }

  datatype QueueResult = Queued(payload: Json) | Failed(message: string, details: Option<Json>)

  /** The fallback message for a failed response. */
  function FallbackMessage(status: nat): string {
    "Failed to queue prompt (" + Text.DecimalString(status) + ")."
  }

  /** The result reported for each outcome of the request. */
  function QueueOutcome(t: Transport): (r: QueueResult)
    ensures t.Unreachable? ==> r == Failed("Failed to reach the ComfyUI backend.", None)
    ensures t.Responded? && t.ok ==> r == Queued(t.payload)
    ensures t.Responded? && !t.ok ==> r.Failed? && r.details == Some(t.payload)
    ensures t.Responded? && !t.ok ==> r.message == ExtractErrorMessage(t.payload).GetOr(FallbackMessage(t.status))
  {
    match t
    case Unreachable => Failed("Failed to reach the ComfyUI backend.", None)
    case Responded(ok, status, payload) =>
      if !ok then Failed(ExtractErrorMessage(payload).GetOr(FallbackMessage(status)), Some(payload))
      else Queued(payload)
  }

  /** The fallback message names the status: different statuses give different messages. */
  lemma FallbackMessageNamesStatus(a: nat, b: nat)
    requires FallbackMessage(a) == FallbackMessage(b)
    ensures a == b
  {
    var prefix := "Failed to queue prompt (";
    var da, db := Text.DecimalString(a), Text.DecimalString(b);
    assert FallbackMessage(a) == prefix + da + ").";
    assert |da| == |db|;
    assert da == FallbackMessage(a)[|prefix|..|prefix| + |da|];
    assert db == FallbackMessage(b)[|prefix|..|prefix| + |db|];
    Text.DecimalRoundTrip(a);
    Text.DecimalRoundTrip(b);
  }

  /** Queues `prompt` for `clientId`: the body sent, and the result for the outcome `t`. */
  method QueuePrompt(prompt: Json, clientId: string, workflow: Json, t: Transport) returns (body: Json, result: QueueResult)
    ensures Get(body, "prompt") == prompt
    ensures Get(Get(body, "extra_data"), "client_id") == JString(clientId)
    ensures Truthy(workflow) <==> Get(Get(body, "extra_data"), "extra_pnginfo") != JUndefined
    ensures body.JObject? && body.fields.Keys == {"prompt", "extra_data"}
    ensures Get(body, "extra_data").JObject? && Get(body, "extra_data").fields.Keys <= {"client_id", "extra_pnginfo"}
    ensures Truthy(workflow) ==> Get(Get(body, "extra_data"), "extra_pnginfo") == JObject(map["workflow" := workflow])
    ensures result == QueueOutcome(t)
  {
    var extraData := BuildExtraData(clientId, workflow);
    body := JObject(map["prompt" := prompt, "extra_data" := extraData]);
    match t {
      case Unreachable =>
        return body, Failed("Failed to reach the ComfyUI backend.", None);
      case Responded(ok, status, payload) =>
        if !ok {
          var message := ExtractErrorMessage(payload);
          return body, Failed(message.GetOr(FallbackMessage(status)), Some(payload));
        }
        return body, Queued(payload);
    }
  }
}
