/** The `/api/classify` handler (server.js): the input check, the request it
    forwards, and the mapping from the upstream reply to the HTTP response.
    The upstream call and `JSON.parse` are parameters. */
module Classify {
  import opened Common
  import opened ServerInput
  import opened PromptBuilder
  import opened Outbound
  import JsonSpan
  import Results

  const NoInputMessage: string := "テキスト情報または画像のいずれかを入力してください"
  const UpstreamFallback: string := "API呼び出しに失敗しました"
  const GenericError: string := "サーバーエラーが発生しました"

  datatype ResponseBody = ErrorBody(error: string) | ClassificationBody(classification: Results.Classification)

  datatype Response = Response(status: int, body: ResponseBody)

  const BadRequest: Response := Response(400, ErrorBody(NoInputMessage))
  const ServerError: Response := Response(500, ErrorBody(GenericError))

  /** The forwarded request: prompt built from `hasTextData`, content from the images. */
  function BuildRequest(prose: FixedProse, req: RequestBody): OutboundRequest {
    var prompt := BuildPrompt(prose, HasTextData(req.patientData), req.patientData, req.images);
    OutboundRequest(ModelName, true, prose.system, UserContentFor(prompt, req.images), Temperature)
  }

  datatype GateOutcome = Rejected(response: Response) | Forwarded(request: OutboundRequest)

  /** The input check: 400 before any upstream request exactly when there is no
      `patientData` object and no image. */
  function Gate(prose: FixedProse, req: RequestBody): (g: GateOutcome)
    ensures g.Rejected? <==> req.patientData.None? && (req.images.None? || |req.images.value| == 0)
    ensures g.Rejected? ==> g.response == BadRequest
  {
    if MissingInput(req) then Rejected(BadRequest) else Forwarded(BuildRequest(prose, req))
  }

  /** The forwarded request carries the prompt and every image, in order, and
      its purpose line names exactly the kinds of input that are present. */
  lemma ForwardedRequestContents(prose: FixedProse, req: RequestBody)
    requires !MissingInput(req)
    requires req.images.Some? ==> forall i :: 0 <= i < |req.images.value| ==> ';' !in req.images.value[i].mimeType
    ensures Gate(prose, req).Forwarded?
    ensures var o := Gate(prose, req).request;
      && o.model == ModelName && o.jsonMode && o.temperature == Temperature
      && Attachments(o.user) == Some((BuildPrompt(prose, HasTextData(req.patientData), req.patientData, req.images),
                                      if HasImages(req.images) then req.images.value else []))
  {
    var prompt := BuildPrompt(prose, HasTextData(req.patientData), req.patientData, req.images);
    UserContentRoundTrip(prompt, req.images);
  }

  /** The parts of the upstream JSON body the handler reads: `error.message`
      of a failed call and `choices[0].message.content` of a successful one,
      each `None` when missing or not a string. */
  datatype ReplyBody = ReplyBody(errorMessage: Option<string>, content: Option<string>)

  /** What `fetch` yields: a rejected promise, or a status and a body. The body
      is `None` when it does not parse as JSON or parses to `null`: reading
      `error.error` or `data.choices` of `null` throws, which ends in the
      generic 500. Any other JSON value is `Some`, with each field `None` where
      that value lacks it. */
  datatype UpstreamReply = NetworkFailure | Reply(status: int, body: Option<ReplyBody>)

  predicate IsOk(status: int) {
    200 <= status <= 299
  }

  /** `error.error?.message || 'API呼び出しに失敗しました'`. */
  function UpstreamMessage(m: Option<string>): string {
    if m.Some? && m.value != "" then m.value else UpstreamFallback
  }

  /** The response for an upstream reply. Status mapping: 200 with the parsed
      object exactly on success; a readable non-OK upstream reply keeps its
      status and passes its message on (or the fixed fallback when it has
      none); everything else, every thrown error, is the generic 500. */
  function Respond(reply: UpstreamReply, parse: string -> Option<Results.Classification>): (r: Response)
    ensures r.status == 200 <==> Succeeds(reply, parse)
    ensures Succeeds(reply, parse) ==>
      r.body == ClassificationBody(parse(JsonSpan.ExtractJson(reply.body.value.content.value).value).value)
    ensures reply.Reply? && !IsOk(reply.status) && reply.body.Some? ==>
      && r.status == reply.status
      && r.body.ErrorBody?
      && (!(reply.body.value.errorMessage.Some? && reply.body.value.errorMessage.value != "") ==>
            r.body.error == UpstreamFallback)
      && (reply.body.value.errorMessage.Some? && reply.body.value.errorMessage.value != "" ==>
            r.body.error == reply.body.value.errorMessage.value)
    ensures !Succeeds(reply, parse) && !(reply.Reply? && !IsOk(reply.status) && reply.body.Some?) ==>
      r == ServerError
  {
    match reply
    case NetworkFailure => ServerError
    case Reply(status, body) =>
      if body.None? then ServerError
      else if !IsOk(status) then Response(status, ErrorBody(UpstreamMessage(body.value.errorMessage)))
      else match body.value.content
        case None => ServerError
        case Some(text) =>
          match JsonSpan.ExtractJson(text)
          case None => ServerError
          case Some(span) =>
            match parse(span)
            case None => ServerError
            case Some(c) => Response(200, ClassificationBody(c))
  }

  /** The reply parts that lead to success: an OK status, a readable body with
      string content, a brace span in it, and a span that parses. */
  predicate Succeeds(reply: UpstreamReply, parse: string -> Option<Results.Classification>) {
    && reply.Reply? && IsOk(reply.status) && reply.body.Some? && reply.body.value.content.Some?
    && JsonSpan.ExtractJson(reply.body.value.content.value).Some?
    && parse(JsonSpan.ExtractJson(reply.body.value.content.value).value).Some?
  }

  /** A reply whose content holds two JSON objects separated by prose fails with
      the generic 500 whenever the combined span does not parse. */
  lemma TwoObjectsNeedCombinedParse(parse: string -> Option<Results.Classification>)
    requires parse("{a} {b}").None?
    ensures Respond(Reply(200, Some(ReplyBody(None, Some("{a} {b}")))), parse) == ServerError
  {
    JsonSpan.GreedySpanCoversBothObjects();
  }

  /** The whole handler, with the upstream call as a function of the request. */
  function Handle(prose: FixedProse, req: RequestBody, upstream: OutboundRequest -> UpstreamReply,
                  parse: string -> Option<Results.Classification>): Response {
    match Gate(prose, req)
    case Rejected(r) => r
    case Forwarded(o) => Respond(upstream(o), parse)
  }

  /** A request with no input is answered 400 without consulting the upstream
      model: any two upstream behaviours give the same response. */
  lemma RejectedWithoutUpstream(prose: FixedProse, req: RequestBody,
                                u1: OutboundRequest -> UpstreamReply, u2: OutboundRequest -> UpstreamReply,
                                parse: string -> Option<Results.Classification>)
    requires MissingInput(req)
    ensures Handle(prose, req, u1, parse) == Handle(prose, req, u2, parse) == BadRequest
  {
  }

  /** Any other request is answered from the upstream reply to the request it
      forwards. */
  lemma ForwardedIsAnsweredUpstream(prose: FixedProse, req: RequestBody, upstream: OutboundRequest -> UpstreamReply,
                                    parse: string -> Option<Results.Classification>)
    requires !MissingInput(req)
    ensures Handle(prose, req, upstream, parse) == Respond(upstream(BuildRequest(prose, req)), parse)
  {
  }
}
