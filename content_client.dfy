/**
 * The mobile client's side of the reaction call, kept only as far as it reads
 * the endpoint's answer: a non-success status throws, otherwise the body's
 * `uplift_count` member is read as a 32-bit integer (a JSON `null` body
 * reads as 0).
 */
module ContentClient {
  import opened Common
  import opened Http
  import opened JsonNumbers
  import ReactToContentFunction

  const UpliftPrefix: string := "{\"uplift_count\": "
  const UpliftSuffix: string := "}"

  /** The `uplift_count` of a body laid out as the endpoint writes it, when it is a JSON integer that fits an `int`. */
  function ReadUpliftCount(body: string): (r: Option<int32>)
    ensures r.Some? ==> |body| >= |UpliftPrefix| + |UpliftSuffix|
    ensures r.Some? ==> body[..|UpliftPrefix|] == UpliftPrefix && body[|body| - |UpliftSuffix|..] == UpliftSuffix
    ensures r.Some? ==> ParseInteger(body[|UpliftPrefix|..|body| - |UpliftSuffix|]) == Some(r.value as int)
  {
    if |body| >= |UpliftPrefix| + |UpliftSuffix|
       && body[..|UpliftPrefix|] == UpliftPrefix
       && body[|body| - |UpliftSuffix|..] == UpliftSuffix
    then
      match ParseInteger(body[|UpliftPrefix|..|body| - |UpliftSuffix|])
      case Some(n) => if Int32Min <= n <= Int32Max then Some(n) else None
      case None => None
    else
      None
  }

  /** `ReactToContentAsync`: the count the client reports for a response, or the exception it throws. */
  function ReactResult(response: HttpResponse): (r: Reply<int32>)
    ensures r.Ok? ==> 200 <= response.status <= 299
  {
    if !(200 <= response.status <= 299) then Failed(OtherException)
    else if response.body == "null" then Ok(0)
    else
      match ReadUpliftCount(response.body)
      case Some(n) => Ok(n)
      case None => Failed(OtherException)
  }

  /** The body the endpoint writes for a count reads back as that count. */
  lemma BodyRoundTrip(count: int32)
    ensures ReadUpliftCount(ReactToContentFunction.UpliftBody(count)) == Some(count)
  {
    var digits := FormatInteger(count);
    var body := ReactToContentFunction.UpliftBody(count);
    assert body == UpliftPrefix + digits + UpliftSuffix;
    assert body[..|UpliftPrefix|] == UpliftPrefix;
    assert body[|body| - |UpliftSuffix|..] == UpliftSuffix;
    assert body[|UpliftPrefix|..|body| - |UpliftSuffix|] == digits;
    FormatThenParse(count);
  }

  /**
   * End to end: for a valid id the client reports exactly the count the
   * increment returned, and it fails whenever the endpoint rejected the id
   * or the increment failed.
   */
  lemma ClientSeesEndpointCount(id: Option<string>, outcome: Reply<int32>)
    ensures ReactResult(ReactToContentFunction.Respond(id, outcome)) ==
      if !ReactToContentFunction.IsNullOrWhiteSpace(id) && outcome.Ok? then Ok(outcome.value) else Failed(OtherException)
  {
    if !ReactToContentFunction.IsNullOrWhiteSpace(id) && outcome.Ok? {
      var body := ReactToContentFunction.UpliftBody(outcome.value);
      BodyRoundTrip(outcome.value);
      assert body != "null" by {
        assert body[0] == '{';
      }
    }
  }
}
