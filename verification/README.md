# Update-service handling and identifier generation in the Piazza service controller

This project models two decision procedures of the service controller of
Piazza's service registry, with every external call turned into a plain input:

- **Dual-store service update** (`UpdateServiceHandler`). `handle(Service)`
  writes a service record to the authoritative document store (MongoDB) and
  then, always, to the search index (Elasticsearch). If the index answers with
  an `ErrorResponse`, the store's result is discarded and the empty string is
  returned as a sentinel meaning "the two stores now disagree"; nothing is
  rolled back. `handle(PiazzaJobType)` maps that string to an OK response
  carrying `[jobId, serviceId]`, a METHOD_FAILURE response carrying one fixed
  message, or null when there is no job. The model records the writes a run
  issues as a call trace, so "both writes, store first, nothing else" is a
  statement about the trace.
- **Identifier selection with local fallback** (`CoreUUIDGen`). `getUUID(count)`
  takes the first id the remote identifier service returns. When the call
  throws, the body or its data list is null, or the list is empty (the
  `get(0)` call throws and the exception is caught), a degraded-mode id is
  made up locally: `"123-345-456"`, the decimal form of a draw in [0, 10^9),
  the decimal form of a draw in [0, 100), then `"2"`. The remote service is a
  function from the requested count to its reply; the two random draws are
  parameters.

Modules: `Wrappers` (an `Option` standing in for nullable references),
`Decimal` (Java's decimal rendering of a non-negative `int`, with a parser
that reads the rendering back: `ParseDecimal`, `ParseToDecimal`), `CoreUuidGen`, `UpdateServiceHandler`.

`handle(Service)` calls the index update (line 121) whatever string the
store's `update` returned (line 118); see `IndexWrittenAfterEmptyStoreResult`.
A store update that throws is not modelled.

## Model

| member | source | states |
|---|---|---|
| Decimal.ToDecimal | mainServiceController/src/main/java/org/venice/piazza/servicecontroller/util/CoreUUIDGen.java:118 | the decimal text of a non-negative int has at least one character, holds only digits, and has no leading zero except for 0 itself |
| Decimal.ParseToDecimal | mainServiceController/src/main/java/org/venice/piazza/servicecontroller/util/CoreUUIDGen.java:118 | reading the decimal text back gives the number it was made from |
| Decimal.ToDecimalLengthBound | mainServiceController/src/main/java/org/venice/piazza/servicecontroller/util/CoreUUIDGen.java:116-118 | a number below 10^k has at most k digits, which bounds the draws' share of a fallback id |
| Decimal.ParseConcat | mainServiceController/src/main/java/org/venice/piazza/servicecontroller/util/CoreUUIDGen.java:118 | two digit strings written one after the other denote the first number times 10^(length of the second) plus the second |
| CoreUuidGen.FirstIssued | mainServiceController/src/main/java/org/venice/piazza/servicecontroller/util/CoreUUIDGen.java:75-90 | the remote service delivers an id exactly when the call returns a non-null body with a non-null, non-empty data list, and that id is the list's first element |
| CoreUuidGen.GenerateId | mainServiceController/src/main/java/org/venice/piazza/servicecontroller/util/CoreUUIDGen.java:113-121 | a fallback id starts with "123-345-456", is only digits after that, ends with "2", and is 14 to 23 characters long; `FallbackIdSplits` pins down the text between prefix and suffix |
| CoreUuidGen.GetUuid | mainServiceController/src/main/java/org/venice/piazza/servicecontroller/util/CoreUUIDGen.java:66-106 | the result is the delivered first id when there is one, and otherwise the fallback id built from the draws |
| CoreUuidGen.GetUuidDefault | mainServiceController/src/main/java/org/venice/piazza/servicecontroller/util/CoreUUIDGen.java:56-59 | `getUUID()` is `getUUID(1)`: the reply to a request for one id decides, else a fallback-shaped id |
| CoreUuidGen.FallbackWhenNothingDelivered | mainServiceController/src/main/java/org/venice/piazza/servicecontroller/util/CoreUUIDGen.java:75-99 | a throwing call, a null body, a null list and an empty list all give the fallback id, which is non-empty and carries the prefix |
| CoreUuidGen.FirstOfManyWins | mainServiceController/src/main/java/org/venice/piazza/servicecontroller/util/CoreUUIDGen.java:78-86 | with a non-empty list the result is its first element, whatever follows it |
| CoreUuidGen.EmptyOnlyWhenIssued | mainServiceController/src/main/java/org/venice/piazza/servicecontroller/util/CoreUUIDGen.java:68-103 | the initial empty string is never the result unless the service itself issued "" as its first id |
| CoreUuidGen.FallbackIdDigits | mainServiceController/src/main/java/org/venice/piazza/servicecontroller/util/CoreUUIDGen.java:116-118 | the digits between the prefix and the final "2" denote the first draw shifted past the digits of the second draw, and the id's length is the prefix, both decimal texts and the suffix added up |
| CoreUuidGen.FallbackIdSplits | mainServiceController/src/main/java/org/venice/piazza/servicecontroller/util/CoreUUIDGen.java:116-118 | the text between the prefix and the final "2" is the decimal text of the first draw followed by that of the second, each without leading zeros and each reading back as its draw |
| CoreUuidGen.FallbackIdsCollide | mainServiceController/src/main/java/org/venice/piazza/servicecontroller/util/CoreUUIDGen.java:118 | draws (1, 23) and (12, 3) give the same fallback id, so fallback ids do not identify their draws |
| UpdateServiceHandler.HandleService | mainServiceController/src/main/java/org/venice/piazza/servicecontroller/messaging/handlers/UpdateServiceHandler.java:112-142 | both writes always happen, store then index, with no further call; an index update that throws passes its exception on; otherwise an index ErrorResponse gives "" whatever the store returned, any other reply gives the store's string, and missing resource metadata throws after both writes |
| UpdateServiceHandler.HandleJob | mainServiceController/src/main/java/org/venice/piazza/servicecontroller/messaging/handlers/UpdateServiceHandler.java:70-105 | a null job gives null with no write; another job type fails the cast with no write; an exception from the index update, or else the NullPointerException from missing resource metadata, passes through after both writes; otherwise the outcome is OK exactly when the store returned a non-empty string and the index did not answer with an error, OK carries [jobId, serviceId] and METHOD_FAILURE carries the one fixed message |
| UpdateServiceHandler.IndexWrittenAfterEmptyStoreResult | mainServiceController/src/main/java/org/venice/piazza/servicecontroller/messaging/handlers/UpdateServiceHandler.java:118-121 | an empty authoritative result does not stop the index write |
| UpdateServiceHandler.StoreSuccessIndexFailureIsMethodFailure | mainServiceController/src/main/java/org/venice/piazza/servicecontroller/messaging/handlers/UpdateServiceHandler.java:80-136 | store success plus index error gives the "" sentinel and then METHOD_FAILURE, the writes being exactly the store update then the index update, so the store write is not undone |
| UpdateServiceHandler.IndexThrowKeepsStoreWrite | mainServiceController/src/main/java/org/venice/piazza/servicecontroller/messaging/handlers/UpdateServiceHandler.java:118-121 | an index update that throws ends both handlers with that exception after the store write, and no undo call follows |
| UpdateServiceHandler.NullIndexReplyCountsAsSuccess | mainServiceController/src/main/java/org/venice/piazza/servicecontroller/messaging/handlers/UpdateServiceHandler.java:132-140 | a null index reply is not an ErrorResponse, so a non-empty store result leads to OK |

## Left out

- Logging (`LOGGER`, `coreLogger`): it has no effect on results. The one exception is the dereference of the resource metadata in the log messages at `UpdateServiceHandler.java:123` and `:126`, which is kept as a NullPointerException.
- The MongoDB and Elasticsearch accessors are not part of this model. Their results are inputs: the store's `update` returns a string, and the index returns a success, an `ErrorResponse` or null, or throws. A store update that throws, or that returns a null string, is not modelled.
- A job whose `data` is null: what the store accessor does with a null record is not visible.
- Null strings inside the remote id list, and a null job id or service id, are not modelled. Every id is a (possibly empty) string.
- CoreUuidGen.GetUuid: a remote call that never returns is not modelled. The `RestTemplate` built at `CoreUUIDGen.java:47` sets no connect or read timeout, so the call at line 75 can block forever and never reach the fallback; the model's remote service always answers or throws.
- The HTTP mechanics of `RestTemplate` and the request map carrying `count`. The remote service is a function of the count.
- `java.util.Random` and `System.nanoTime` seeding. The two draws are bounded integer parameters. No claim about uniqueness or probability is made.
- `TaskManagedController` is a pass-through REST wrapper with no logic of its own. `CoreServiceProperties` is configuration binding.
- The job-queue lease protocol, status transitions and queue statistics live in `ServiceTaskManager` and `MongoAccessor`, which are not part of this model.
