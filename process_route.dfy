/**
 * POST /api/ingest/process: runs the processor once and maps its result to
 * an HTTP response.  Success is 200 with the session id; the processor's
 * empty-queue error is 404; any other error is 500 with the message as is.
 */
module ProcessRoute {
  import opened Wrappers
  import opened Domain
  import opened Store
  import opened Processor

  datatype Response = Response(
    status: nat,
    success: bool,
    sessionId: Option<Id>,
    message: Option<string>,
    error: Option<string>)

  const CompleteMessage := "Processing complete"

  /** The response for one processor result. */
  function Respond(result: ProcessResult): (r: Response)
    ensures r.success == result.success
    ensures result.success ==>
      r.status == 200 && r.sessionId == result.sessionId && r.message == Some(CompleteMessage) && r.error.None?
    ensures !result.success ==> r.error == result.error && r.sessionId.None? && r.message.None?
    ensures !result.success ==> (r.status == 404 <==> result.error == Some(NoItemsMessage))
    ensures !result.success ==> (r.status == 500 <==> result.error != Some(NoItemsMessage))
  {
    if result.success then Response(200, true, result.sessionId, Some(CompleteMessage), None)
    else Response(if result.error == Some(NoItemsMessage) then 404 else 500, false, None, None, result.error)
  }

  /** The handler: process the next item and answer. */
  method Post(kb: KnowledgeBase, extract: Extractor, today: string, fault: SetupFault) returns (r: Response)
    requires kb.Valid()
    modifies kb
    ensures kb.Valid()
    ensures old(kb.GetNextQueueItem()).None? ==>
      r.status == 404 && r.error == Some(NoItemsMessage) && kb.State() == old(kb.State())
    ensures old(kb.GetNextQueueItem()).Some? && fault.NoFault? ==>
      r.status == 200 && r.success && r.sessionId == Some(old(kb.clock))
    ensures old(kb.GetNextQueueItem()).Some? && !fault.NoFault? ==>
      !r.success && r.error == Some(fault.message)
      && (r.status == 404 <==> fault.message == NoItemsMessage)
  {
    var result := ProcessNextQueueItem(kb, extract, today, fault);
    r := Respond(result);
  }
}
