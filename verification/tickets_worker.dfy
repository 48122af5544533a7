/**
 * The queue worker of the ticket jobs: it dispatches a job on its name to
 * the ticket service's operations, in order, and rethrows whatever they
 * throw so that the queue may retry the job.
 *
 * The operations it calls are not part of this model: their answers are
 * the parameter `answer`, which gives, for each call, the value the call
 * resolves to (None for null or undefined) or the error it throws.
 */
module TicketsWorker {
  import opened Wrappers
  import opened Json

  /** A call to an operation of the ticket service, with its arguments read from the job data. */
  datatype ServiceCall =
    | CreateInAutotask(contactId: Value, companyId: Value, title: Value, description: Value)
    | FinalizeTicketCreation(localTicketId: Value, itemId: Value)
    | SyncTicketsAndMessagesForUser(userId: Value, contactId: Value, companyId: Value)
    | CreateNoteForTicket(autotaskTicketId: Value, contactId: Value, userId: Value, content: Value)

  datatype JobError =
    | ServiceError(message: string)
    /** The job name is none of the three known ones. */
    | UnknownJob(message: string)
    /** `created.itemId` read on a creation that resolved to null or undefined. */
    | NoCreatedTicket

  const KnownJobs: set<string> := {"create-ticket", "sync-user", "create-note"}

  /** `{ success: true }`. */
  const Success: Object := map["success" := Bool(true)]

  /**
   * `process(job)`: the result and the calls made, in order. The calls are
   * exactly those the job's name prescribes, each made only once the one
   * before it has resolved; the job succeeds iff every call resolves, and
   * the first error thrown is the job's error, unchanged.
   */
  method Process(name: string, data: Object, answer: ServiceCall -> Result<Option<Object>, string>)
    returns (r: Result<Object, JobError>, calls: seq<ServiceCall>)
    ensures name !in KnownJobs ==> r == Err(UnknownJob("Type de job inconnu : " + name)) && calls == []
    ensures name == "sync-user" ==>
      calls == [SyncTicketsAndMessagesForUser(Get(data, "userId"), Get(data, "contactId"), Get(data, "companyId"))]
    ensures name == "create-note" ==>
      calls == [CreateNoteForTicket(Get(data, "autotaskTicketId"), Get(data, "contactId"), Get(data, "userId"), Get(data, "content"))]
    ensures name == "create-ticket" ==>
      var create := CreateInAutotask(Get(data, "contactId"), Get(data, "companyId"), Get(data, "title"), Get(data, "description"));
      && |calls| >= 1 && calls[0] == create
      && (answer(create).Ok? && answer(create).value.Some? <==> |calls| == 2)
      && (|calls| == 2 ==> calls[1] == FinalizeTicketCreation(Get(data, "localTicketId"), Get(answer(create).value.value, "itemId")))
      && (answer(create).Ok? && answer(create).value.None? ==> r == Err(NoCreatedTicket))
    ensures |calls| <= 2
    ensures forall i :: 0 <= i < |calls| - 1 ==> answer(calls[i]).Ok?
    ensures r.Ok? <==> name in KnownJobs && calls != [] && answer(calls[|calls| - 1]).Ok? && r != Err(NoCreatedTicket)
    ensures r.Ok? ==> r.value == Success
    ensures r.Err? && r.error.ServiceError? ==> calls != [] && answer(calls[|calls| - 1]) == Err(r.error.message)
  {
    calls := [];
    if name == "create-ticket" {
      var create := CreateInAutotask(Get(data, "contactId"), Get(data, "companyId"), Get(data, "title"), Get(data, "description"));
      calls := calls + [create];
      var created := answer(create);
      if created.Err? {
        return Err(ServiceError(created.error)), calls;
      }
      if created.value.None? {
        return Err(NoCreatedTicket), calls;
      }
      var finalize := FinalizeTicketCreation(Get(data, "localTicketId"), Get(created.value.value, "itemId"));
      calls := calls + [finalize];
      var finalized := answer(finalize);
      if finalized.Err? {
        return Err(ServiceError(finalized.error)), calls;
      }
    } else if name == "sync-user" {
      var sync := SyncTicketsAndMessagesForUser(Get(data, "userId"), Get(data, "contactId"), Get(data, "companyId"));
      calls := calls + [sync];
      var synced := answer(sync);
      if synced.Err? {
        return Err(ServiceError(synced.error)), calls;
      }
    } else if name == "create-note" {
      var note := CreateNoteForTicket(Get(data, "autotaskTicketId"), Get(data, "contactId"), Get(data, "userId"), Get(data, "content"));
      calls := calls + [note];
      var noted := answer(note);
      if noted.Err? {
        return Err(ServiceError(noted.error)), calls;
      }
    } else {
      return Err(UnknownJob("Type de job inconnu : " + name)), calls;
    }
    return Ok(Success), calls;
  }
}
