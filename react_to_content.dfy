/**
 * The reaction HTTP endpoint, `POST articles/{id}/react`: validate the
 * article id, ask the store client for one increment, and render the new
 * count as JSON, turning every failure into a bare 500.
 */
module ReactToContentFunction {
  import opened Common
  import opened Http
  import opened JsonNumbers
  import opened ReactionStorage

  /** `char.IsWhiteSpace`: the Unicode space separators, line and paragraph separators, and U+0009-U+000D, U+0085. */
  predicate IsWhiteSpace(c: char) {
    var u := c as int;
    || 0x0009 <= u <= 0x000D || u == 0x0020 || u == 0x0085 || u == 0x00A0
    || u == 0x1680 || 0x2000 <= u <= 0x200A || u == 0x2028 || u == 0x2029
    || u == 0x202F || u == 0x205F || u == 0x3000
  }

  /** `string.IsNullOrWhiteSpace`, with a null id as `None`. */
  predicate IsNullOrWhiteSpace(id: Option<string>): (r: bool)
    // null and "" are rejected; an id holding any non-white-space character is accepted
    ensures id == None || id == Some("") ==> r
    ensures id.Some? && (exists i :: 0 <= i < |id.value| && !IsWhiteSpace(id.value[i])) ==> !r
  {
    id.None? || forall i :: 0 <= i < |id.value| ==> IsWhiteSpace(id.value[i])
  }

  const ContentTypeHeader: Header := ("Content-Type", "application/json; charset=utf-8")

  /** The JSON the endpoint writes for a new count. */
  function UpliftBody(count: int32): (r: string)
    // the object's one member is `uplift_count`, whose value is the count's decimal rendering
    ensures |r| > 18 && r[..17] == "{\"uplift_count\": " && r[|r| - 1] == '}'
    ensures r[17..|r| - 1] == FormatInteger(count)
  {
    "{\"uplift_count\": " + FormatInteger(count) + "}"
  }

  /**
   * The response for an id and the outcome its increment had; the outcome
   * is not looked at when the id is rejected, since no increment happens then.
   */
  function Respond(id: Option<string>, outcome: Reply<int32>): (r: HttpResponse)
    ensures IsNullOrWhiteSpace(id) ==> r == EmptyResponse(StatusBadRequest)
    ensures !IsNullOrWhiteSpace(id) && outcome.Ok? ==>
      r == HttpResponse(StatusOK, [ContentTypeHeader], UpliftBody(outcome.value))
    ensures !IsNullOrWhiteSpace(id) && outcome.Failed? ==> r == EmptyResponse(StatusInternalServerError)
    ensures r.status == StatusOK <==> !IsNullOrWhiteSpace(id) && outcome.Ok?
    ensures r.status in {StatusOK, StatusBadRequest, StatusInternalServerError}
  {
    if IsNullOrWhiteSpace(id) then EmptyResponse(StatusBadRequest)
    else
      match outcome
      case Ok(newCount) => HttpResponse(StatusOK, [ContentTypeHeader], UpliftBody(newCount))
      // a storage RequestFailedException and any other exception are answered alike
      case Failed(RequestFailed(_)) => EmptyResponse(StatusInternalServerError)
      case Failed(OtherException) => EmptyResponse(StatusInternalServerError)
  }

  class ReactToContent {
    const reactionService: ReactionStorageService

    constructor (reactionService: ReactionStorageService)
      ensures this.reactionService == reactionService
    {
      this.reactionService := reactionService;
    }

    /**
     * `Run`: a rejected id gets 400 and no store call; otherwise exactly one
     * increment is asked for, with that id, and its outcome is rendered.
     */
    method Run(id: Option<string>, readFault: Option<Failure>, writeFault: Option<Failure>)
      returns (response: HttpResponseData)
      requires reactionService.Valid()
      modifies reactionService, reactionService.tableClient.service
      ensures reactionService.Valid() && fresh(response)
      ensures IsNullOrWhiteSpace(id) ==>
        && response.Value() == EmptyResponse(StatusBadRequest)
        && reactionService.incrementCalls == old(reactionService.incrementCalls)
        && unchanged(reactionService.tableClient.service)
      ensures !IsNullOrWhiteSpace(id) ==>
        var e := Increment(old(reactionService.Rows()), id.value, readFault, writeFault);
        && reactionService.incrementCalls == old(reactionService.incrementCalls) + [id.value]
        && response.Value() == Respond(id, e.result)
        && reactionService.tableClient.service.tables == old(reactionService.tableClient.service.tables)[TableName := e.rows]
        && reactionService.tableClient.service.upserts ==
             old(reactionService.tableClient.service.upserts) + (if e.upserted.Some? then [(TableName, e.upserted.value)] else [])
    {
      if IsNullOrWhiteSpace(id) {
        response := new HttpResponseData(StatusBadRequest);
        return;
      }
      var outcome := reactionService.IncrementUpliftCount(id.value, readFault, writeFault);
      match outcome
      case Ok(newCount) =>
        response := new HttpResponseData(StatusOK);
        response.AddHeader(ContentTypeHeader.0, ContentTypeHeader.1);
        response.WriteString(UpliftBody(newCount));
      case Failed(RequestFailed(_)) =>
        response := new HttpResponseData(StatusInternalServerError);
      case Failed(OtherException) =>
        response := new HttpResponseData(StatusInternalServerError);
    }
  }
}
