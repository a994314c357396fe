/**
 * The `/send_plates` endpoint: parse the ids, map the fetched ShotGrid
 * elements to FileMaker records, open a FileMaker session, post the records
 * and report. The answers of ShotGrid and FileMaker are parameters; the
 * requests the endpoint makes are returned as a trace.
 */
module SendPlates {
  import opened Wrappers
  import opened Values
  import opened SelectedIds
  import opened DebugFlag
  import opened FieldMapping
  import opened FileMakerSession

  /** What stands in for the FileMaker reply when debug is off. */
  const Placeholder: string := "hidden (debug off)"

  const SentPrefix: string := "\U{2705} Sent "
  const SentSuffix: string := " records to FileMaker."

  /** The requests the endpoint makes to the outside, in order. */
  datatype Call =
    | QueryElements(entityType: string, ids: seq<nat>) // sg.find(entity_type, [["id", "in", ids]], fields)
    | CreateSession                                    // POST .../sessions
    | CreateRecords(records: seq<FmRecord>)            // POST .../records with {"records": records}

  /** Failures caught around the FileMaker exchange. */
  datatype SendError =
    | Session(cause: SessionError)
    | ReplyNotJson                 // r.json() on the record-creation reply raised

  /** The JSON bodies the endpoint answers with. */
  datatype Body =
    | ErrorBody(error: string)                                                   // {"error": ...}
    | SendFailed(cause: SendError)                                               // {"error": "Failed to send to FileMaker: ..."}
    | Sent(message: string, records: seq<FmRecord>, filemakerResponse: RawValue)

  /** The HTTP outcome of one request. */
  datatype Response =
    | Json(status: int, body: Body)
    | Unhandled(error: MapError)   // an exception no handler catches: the framework's own 500 page

  /** The success body: the count, the records, and the FileMaker reply only in debug mode. */
  function Report(records: seq<FmRecord>, reply: RawValue, debug: bool): (b: Body)
    ensures b.Sent? && b.records == records
    ensures b.filemakerResponse == (if debug then reply else Str(Placeholder))
  {
    Sent(SentPrefix + ShowNat(|records|) + SentSuffix, records, if debug then reply else Str(Placeholder))
  }

  /** The number in the message reads back as the number of records. */
  lemma ReportedCount(records: seq<FmRecord>, reply: RawValue, debug: bool)
    ensures var m := Report(records, reply, debug).message;
      |SentPrefix| + |SentSuffix| < |m| &&
      m[..|SentPrefix|] == SentPrefix && m[|m| - |SentSuffix|..] == SentSuffix &&
      IsDigits(m[|SentPrefix|..|m| - |SentSuffix|]) &&
      DigitsValue(m[|SentPrefix|..|m| - |SentSuffix|]) == |records|
  {
    var digits := ShowNat(|records|);
    var m := SentPrefix + digits + SentSuffix;
    assert m[|SentPrefix|..|m| - |SentSuffix|] == digits;
    assert m[..|SentPrefix|] == SentPrefix;
    assert m[|m| - |SentSuffix|..] == SentSuffix;
    ShowNatValue(|records|);
  }

  /** With debug off the body does not depend on the FileMaker reply at all. */
  lemma HiddenReplyDoesNotLeak(records: seq<FmRecord>, reply1: RawValue, reply2: RawValue)
    ensures Report(records, reply1, false) == Report(records, reply2, false)
    ensures Report(records, reply1, false).filemakerResponse == Str(Placeholder)
  {
  }

  /**
   * The `try` block around FileMaker: open a session, post the records and
   * decode the reply. A refused session stops before any record is posted;
   * the status of the record-creation reply is never looked at.
   */
  method SendToFileMaker(fmRecords: seq<FmRecord>, sessionStatus: int, sessionBody: Option<RawValue>,
                         createBody: Option<RawValue>)
    returns (result: Result<RawValue, SendError>, calls: seq<Call>)
    ensures SessionToken(sessionStatus, sessionBody).Err? ==>
      result == Err(Session(SessionToken(sessionStatus, sessionBody).error)) && calls == [CreateSession]
    ensures SessionToken(sessionStatus, sessionBody).Ok? ==>
      calls == [CreateSession, CreateRecords(fmRecords)] &&
      result == (if createBody.Some? then Ok(createBody.value) else Err(ReplyNotJson))
  {
    calls := [CreateSession];
    var token := SessionToken(sessionStatus, sessionBody);
    if token.Err? {
      return Err(Session(token.error)), calls;
    }
    calls := calls + [CreateRecords(fmRecords)];
    if createBody.None? {
      return Err(ReplyNotJson), calls;
    }
    result := Ok(createBody.value);
  }

  /**
   * One request. `elements` is what the ShotGrid query returns,
   * `sessionStatus`/`sessionBody` the reply to the session request and
   * `createBody` the decoded reply to the record creation (`None` when it
   * is not JSON; its status is never looked at).
   */
  method SendPlates(entityType: string, selectedIdsRaw: string, debugRaw: string,
                    elements: seq<Element>, sessionStatus: int, sessionBody: Option<RawValue>,
                    createBody: Option<RawValue>)
    returns (resp: Response, calls: seq<Call>)
    // a malformed or empty id list is refused before anything is queried or sent
    ensures ParseSelectedIds(selectedIdsRaw) == Err(InvalidIds) <==>
      resp == Json(400, ErrorBody("Invalid selected_ids"))
    ensures ParseSelectedIds(selectedIdsRaw) == Err(NoValidIds) <==>
      resp == Json(400, ErrorBody("No valid IDs provided"))
    ensures ParseSelectedIds(selectedIdsRaw).Err? ==> calls == []
    ensures ParseSelectedIds(selectedIdsRaw).Ok? ==>
      calls != [] && calls[0] == QueryElements(entityType, ParseSelectedIds(selectedIdsRaw).value)
    // a broken reference in any element aborts the request before FileMaker is contacted,
    // with the error of the first such element
    ensures resp.Unhandled? <==> ParseSelectedIds(selectedIdsRaw).Ok? && !AllMapped(elements)
    ensures resp.Unhandled? ==> |calls| == 1 && FirstFailure(elements, resp.error)
    // a refused session is answered with 500 before any record is sent
    ensures (ParseSelectedIds(selectedIdsRaw).Ok? &&
      AllMapped(elements) &&
      SessionToken(sessionStatus, sessionBody).Err?) ==>
      resp == Json(500, SendFailed(Session(SessionToken(sessionStatus, sessionBody).error))) &&
      calls == [QueryElements(entityType, ParseSelectedIds(selectedIdsRaw).value), CreateSession]
    ensures resp.Json? && resp.body.SendFailed? && resp.body.cause.Session? ==>
      SessionToken(sessionStatus, sessionBody) == Err(resp.body.cause.cause) &&
      |calls| == 2 && calls[1] == CreateSession
    // a record-creation reply that is not JSON is answered with 500 after the records were sent
    ensures (ParseSelectedIds(selectedIdsRaw).Ok? &&
      AllMapped(elements) &&
      SessionToken(sessionStatus, sessionBody).Ok? && createBody.None?) ==>
      resp == Json(500, SendFailed(ReplyNotJson)) && |calls| == 3 &&
      calls[..2] == [QueryElements(entityType, ParseSelectedIds(selectedIdsRaw).value), CreateSession] &&
      calls[2].CreateRecords? && RecordsFor(elements, calls[2].records)
    // records are posted only with a token
    ensures forall k :: 0 <= k < |calls| && calls[k].CreateRecords? ==>
      k == 2 && SessionToken(sessionStatus, sessionBody).Ok?
    // success is reported whatever the record-creation reply says, as long as it is JSON
    ensures resp.Json? && resp.status == 200 <==>
      ParseSelectedIds(selectedIdsRaw).Ok? &&
      AllMapped(elements) &&
      SessionToken(sessionStatus, sessionBody).Ok? && createBody.Some?
    // one record per element, in order, even when its fieldData is empty; they are the records posted
    ensures resp.Json? && resp.status == 200 ==>
      resp.body.Sent? && RecordsFor(elements, resp.body.records) &&
      calls == [QueryElements(entityType, ParseSelectedIds(selectedIdsRaw).value), CreateSession,
                CreateRecords(resp.body.records)]
    ensures resp.Json? && resp.status == 200 ==>
      resp.body == Report(resp.body.records, createBody.value, IsDebugOn(debugRaw))
  {
    var debug := IsDebugOn(debugRaw);
    var ids := ParseSelectedIds(selectedIdsRaw);
    if ids.Err? {
      var message := if ids.error.InvalidIds? then "Invalid selected_ids" else "No valid IDs provided";
      return Json(400, ErrorBody(message)), [];
    }
    calls := [QueryElements(entityType, ids.value)];
    var built := BuildRecords(elements);
    if built.Err? {
      return Unhandled(built.error), calls;
    }
    var fmRecords := built.value;
    var result, sent := SendToFileMaker(fmRecords, sessionStatus, sessionBody, createBody);
    calls := calls + sent;
    if result.Err? {
      return Json(500, SendFailed(result.error)), calls;
    }
    resp := Json(200, Report(fmRecords, result.value, debug));
  }
}
