/**
 The handler for update-service jobs. `handle(Service)` writes the service
 record to the authoritative document store and then, unconditionally, to the
 search index; when the index answers with an error it discards the store's
 result and returns the empty string as an inconsistency sentinel. Nothing is
 undone. `handle(PiazzaJobType)` turns that string into an HTTP-style outcome.

 Both stores are parameters: the string the document store's `update`
 returns, and the kind of reply the search index gives.
 */
module UpdateServiceHandler {
  import opened Wrappers

  datatype ResourceMetadata = ResourceMetadata(name: string)

  /** The service record; its resource metadata may be a null reference. */
  datatype Service = Service(serviceId: string, resourceMetadata: Option<ResourceMetadata>)

  /**
   How the search index's update ends: a plain response, an `ErrorResponse`,
   null, or an exception out of `elasticAccessor.update`.
   */
  datatype IndexReply = IndexSuccess | IndexError(message: string) | IndexNull | IndexThrows

  /** The external writes the handler performs, in the order it performs them. */
  datatype Call = StoreUpdate(service: Service) | IndexUpdate(service: Service)

  /** The exceptions that can leave the handler; `IndexUpdateException` is whatever the index update throws. */
  datatype JavaException = NullPointerException | ClassCastException | IndexUpdateException

  /** How a Java call ends: with a value, or by throwing. */
  datatype Completion<T> = Returns(value: T) | Throws(exception: JavaException)

  /** One run of a handler: the writes it issued and how it ended. */
  datatype Run<T> = Run(calls: seq<Call>, completion: Completion<T>)

  /** The job the handler receives: null, an `UpdateServiceJob`, or a job of another type. */
  datatype JobRequest =
    | NullJob
    | UpdateServiceJob(jobId: string, data: Service)
    | OtherJobType

  /** Spring's `HttpStatus.OK` (200) and `HttpStatus.METHOD_FAILURE` (420). */
  datatype HttpStatus = Ok | MethodFailure

  /** A `ResponseEntity<List<String>>`. */
  datatype Response = Response(body: seq<string>, status: HttpStatus)

  /** Returned by `handle(Service)` when the two stores are known to disagree. */
  const InconsistentSentinel: string := ""

  const FailureMessage: string := "UpdateServiceHandler handle didn't work"

  /** The only writes one update may issue: the store first, then the index, for the same record. */
  predicate DualWrite(calls: seq<Call>, s: Service) {
    calls == [StoreUpdate(s), IndexUpdate(s)]
  }

  /**
   `handle(Service)`. Both writes always happen, store first, whatever either
   returns; no compensating call follows. The store's result comes back
   unless the index reply is an `ErrorResponse`, in which case the sentinel
   does. An index update that throws passes its exception on, leaving the
   store write in place; otherwise a record without resource metadata makes
   the log message throw after both writes.
   */
  function HandleService(s: Service, storeResult: string, indexReply: IndexReply): (run: Run<string>)
    ensures DualWrite(run.calls, s)
    ensures run.completion.Throws? <==> indexReply.IndexThrows? || s.resourceMetadata.None?
    ensures indexReply.IndexThrows? ==> run.completion == Throws(IndexUpdateException)
    ensures !indexReply.IndexThrows? && s.resourceMetadata.None? ==>
      run.completion == Throws(NullPointerException)
    ensures run.completion.Returns? && indexReply.IndexError? ==>
      run.completion.value == InconsistentSentinel
    ensures run.completion.Returns? && !indexReply.IndexError? ==>
      run.completion.value == storeResult
  {
    var calls := [StoreUpdate(s), IndexUpdate(s)];
    if indexReply.IndexThrows? then
      Run(calls, Throws(IndexUpdateException))   // the index update throws before either log message is built
    else if s.resourceMetadata.None? then
      Run(calls, Throws(NullPointerException))   // getResourceMetadata().name in either log branch
    else if indexReply.IndexError? then
      Run(calls, Returns(InconsistentSentinel))
    else
      Run(calls, Returns(storeResult))
  }

  /**
   `handle(PiazzaJobType)`. A null job yields null and touches neither store;
   a job of another type fails the cast before any write. An exception from
   the service update passes through unchanged. Otherwise a
   non-empty inner result gives OK with the job id and the service id, and an
   empty one gives METHOD_FAILURE with the fixed message.
   */
  function HandleJob(job: JobRequest, storeResult: string, indexReply: IndexReply): (run: Run<Option<Response>>)
    ensures job.NullJob? ==> run == Run([], Returns(None))
    ensures job.OtherJobType? ==> run == Run([], Throws(ClassCastException))
    ensures job.UpdateServiceJob? ==> DualWrite(run.calls, job.data)
    ensures job.UpdateServiceJob? ==>
      (run.completion.Returns? <==> job.data.resourceMetadata.Some? && !indexReply.IndexThrows?)
    ensures job.UpdateServiceJob? && indexReply.IndexThrows? ==>
      run.completion == Throws(IndexUpdateException)
    ensures job.UpdateServiceJob? && !indexReply.IndexThrows? && job.data.resourceMetadata.None? ==>
      run.completion == Throws(NullPointerException)
    ensures run.completion.Returns? && job.UpdateServiceJob? ==>
      && run.completion.value.Some?
      && (run.completion.value.value.status == Ok <==>
            storeResult != "" && !indexReply.IndexError?)
    ensures run.completion.Returns? && run.completion.value.Some? ==>
      var response := run.completion.value.value;
      && (response.status == Ok ==> response.body == [job.jobId, job.data.serviceId])
      && (response.status == MethodFailure ==> response.body == [FailureMessage])
  {
    match job
    case NullJob => Run([], Returns(None))
    case OtherJobType => Run([], Throws(ClassCastException))
    case UpdateServiceJob(jobId, s) =>
      var inner := HandleService(s, storeResult, indexReply);
      match inner.completion
      case Throws(e) => Run(inner.calls, Throws(e))
      case Returns(result) =>
        if |result| > 0 then
          Run(inner.calls, Returns(Some(Response([jobId, s.serviceId], Ok))))
        else
          Run(inner.calls, Returns(Some(Response([FailureMessage], MethodFailure))))
  }

  /**
   The index is written even when the store returned nothing: the update does
   not stop after an empty authoritative result.
   */
  lemma IndexWrittenAfterEmptyStoreResult(s: Service, indexReply: IndexReply)
    ensures HandleService(s, "", indexReply).calls[1] == IndexUpdate(s)
    ensures HandleService(s, "", indexReply).completion.Returns? ==>
      HandleService(s, "", indexReply).completion.value == ""
  {
  }

  /**
   Store success followed by index failure surfaces as METHOD_FAILURE at job
   level, through the empty-string sentinel, while the store write stands.
   */
  lemma StoreSuccessIndexFailureIsMethodFailure(
    jobId: string, s: Service, storeResult: string, message: string)
    requires s.resourceMetadata.Some?
    requires storeResult != ""
    ensures var inner := HandleService(s, storeResult, IndexError(message));
      inner.completion == Returns(InconsistentSentinel)
    ensures var run := HandleJob(UpdateServiceJob(jobId, s), storeResult, IndexError(message));
      && run.calls == [StoreUpdate(s), IndexUpdate(s)]
      && run.completion == Returns(Some(Response([FailureMessage], MethodFailure)))
  {
  }

  /** A null reply from the index is not an `ErrorResponse`, so the store's result passes through. */
  lemma NullIndexReplyCountsAsSuccess(jobId: string, s: Service, storeResult: string)
    requires s.resourceMetadata.Some?
    requires storeResult != ""
    ensures HandleJob(UpdateServiceJob(jobId, s), storeResult, IndexNull)
      == Run([StoreUpdate(s), IndexUpdate(s)], Returns(Some(Response([jobId, s.serviceId], Ok))))
  {
  }

  /**
   An index update that throws leaves the store write standing: the exception
   leaves both handlers and no undo call is issued.
   */
  lemma IndexThrowKeepsStoreWrite(jobId: string, s: Service, storeResult: string)
    ensures var run := HandleJob(UpdateServiceJob(jobId, s), storeResult, IndexThrows);
      && run.calls == [StoreUpdate(s), IndexUpdate(s)]
      && run.completion == Throws(IndexUpdateException)
  {
  }
}
