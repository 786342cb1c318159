/** The bodies of the two POST handlers: validate, build the completion
    request, let the completion service answer, and turn the outcome into
    the JSON reply. The completion service is a function from the request
    sent to the exchange that follows; the `sent` result records whether,
    and with what, it was called. */
module Handlers {
  import opened JsString
  import opened Prompt
  import opened FormParams
  import opened Upstream

  const ModelId := "llama-3.3-70b-versatile"

  /** The two-message body of a completion request (system, then user). */
  datatype CompletionRequest = CompletionRequest(model: string, system: string, user: string)

  /** The HTTP reply: 200 with `{ enhanced }` (the key is left out of the
      JSON when the value is undefined), or an error status with `{ error }`. */
  datatype Reply = Success(enhanced: Option<string>) | Failure(status: nat, error: string)

  /** The body of a `/enhance` request. */
  datatype TextRequest = TextRequest(text: Option<string>, tone: Option<string>)

  const TextRequired := "Text input is required."
  const FieldRequired := "At least one form field is required."
  const EnhanceFailedPrefix := "Failed to enhance content. "
  const FormEnhanceFailedPrefix := "Failed to enhance form content. "

  /** The catch block: any error becomes a 500 whose message is the
      handler's prefix followed by the error's own message. */
  function Respond(prefix: string, outcome: Outcome): (reply: Reply)
    ensures outcome.Completed? ==> reply == Success(outcome.content)
    ensures outcome.Failed? ==> reply.Failure? && reply.status == 500
    ensures outcome.Failed? ==>
              |prefix| <= |reply.error| && reply.error[..|prefix|] == prefix
              && reply.error[|prefix|..] == ErrorMessage(outcome.error)
  {
    match outcome
    case Completed(content) => Success(content)
    case Failed(e) => Failure(500, prefix + ErrorMessage(e))
  }

  /** The completion request the text-mode caller sends. */
  function TextCompletion(text: string, tone: Option<string>): (r: CompletionRequest)
    requires PlainTone(tone)
    ensures r.model == ModelId && r.system == TextSystemPrompt(tone)
    ensures r.user == text
  {
    CompletionRequest(ModelId, TextSystemPrompt(tone), text)
  }

  /** The completion request the form-mode caller sends. */
  function FormCompletion(params: seq<Field>, tone: Option<string>): (r: CompletionRequest)
    requires PlainTone(tone)
    ensures r.model == ModelId && r.system == FormSystemPrompt(tone)
    ensures r.user == FormatContent(params)
  {
    CompletionRequest(ModelId, FormSystemPrompt(tone), FormatContent(params))
  }

  /** POST /enhance */
  method Enhance(req: TextRequest, upstream: CompletionRequest -> Exchange)
    returns (reply: Reply, sent: Option<CompletionRequest>)
    requires PlainTone(req.tone)
    ensures sent.None? <==> req.text.None? || IsBlank(req.text.value)
    ensures sent.None? ==> reply == Failure(400, TextRequired)
    ensures sent.Some? ==> sent.value.model == ModelId
    ensures sent.Some? ==> sent.value.user == req.text.value
    ensures sent.Some? ==> sent.value.system == TextSystemPrompt(req.tone)
    ensures sent.Some? ==> reply == Respond(EnhanceFailedPrefix, ClassifyText(upstream(sent.value)))
  {
    if req.text.None? || req.text.value == "" || Trim(req.text.value) == "" {
      return Failure(400, TextRequired), None;
    }
    var request := TextCompletion(req.text.value, req.tone);
    var outcome := ClassifyText(upstream(request));
    reply := Respond(EnhanceFailedPrefix, outcome);
    sent := Some(request);
  }

  /** POST /formenhance */
  method FormEnhance(req: FormRequest, upstream: CompletionRequest -> Exchange)
    returns (reply: Reply, sent: Option<CompletionRequest>)
    requires PlainTone(req.tone)
    ensures sent.None? <==>
              !Truthy(req.companyName) && !Truthy(req.role) && !Truthy(req.skills)
              && !Truthy(req.eligibility) && req.extraFields == []
    ensures sent.None? ==> reply == Failure(400, FieldRequired)
    ensures sent.Some? ==> sent.value.model == ModelId
    ensures sent.Some? ==> sent.value.user == FormatContent(FieldList(req))
    ensures sent.Some? ==> sent.value.system == FormSystemPrompt(req.tone)
    ensures sent.Some? ==> reply == Respond(FormEnhanceFailedPrefix, ClassifyForm(upstream(sent.value)))
    ensures reply.Success? ==> reply.enhanced.Some? && reply.enhanced.value != ""
  {
    var params := AssembleParams(req);
    if |params| == 0 {
      return Failure(400, FieldRequired), None;
    }
    var request := FormCompletion(params, req.tone);
    var outcome := ClassifyForm(upstream(request));
    reply := Respond(FormEnhanceFailedPrefix, outcome);
    sent := Some(request);
  }

  /** An upstream status that is not ok reaches the client of /formenhance
      as a 500 whose message gives back that status and raw body. */
  lemma FormUpstreamStatusReported(status: nat, raw: string, parsed: Parse)
    ensures var reply := Respond(FormEnhanceFailedPrefix, ClassifyForm(Received(false, status, raw, parsed)));
            reply.Failure? && reply.status == 500
            && ReadHttpErrorMessage(reply.error[|FormEnhanceFailedPrefix|..]) == Some((status, raw))
  {
  }

  /** The same for /enhance. */
  lemma TextUpstreamStatusReported(status: nat, raw: string, parsed: Parse)
    ensures var reply := Respond(EnhanceFailedPrefix, ClassifyText(Received(false, status, raw, parsed)));
            reply.Failure? && reply.status == 500
            && ReadHttpErrorMessage(reply.error[|EnhanceFailedPrefix|..]) == Some((status, raw))
  {
  }
}
