# Default meta-request strategy of the S3 client, in Dafny

This project models the default (single-request) meta-request strategy of the
AWS C S3 client (`source/s3_default_meta_request.c`). It drives a whole transfer
with exactly one network request. The strategy has four parts:

- `update` is polled by the client's scheduler. It creates the single request once (tag 0,
  part number 1, response headers recorded). It then waits for the request to complete and
  for the response body to be delivered. Last, it records success with the cached
  response status and calls `finish`. When a finish result is already set (a cancellation
  or a failure), it only waits for what is in flight to drain.
- `prepare_request` reads the whole body into a buffer of capacity `content_length`, and
  only on the first preparation of a request with content. A short read is
  `AWS_ERROR_S3_INCORRECT_CONTENT_LENGTH`. The step adds Content-MD5 only when no flexible
  checksum is configured, and the validation-mode header when response validation is on.
- `finished_request` runs the user's headers callback at most once. A failing callback
  replaces the error. It then records completion, status and error, and either streams
  the body or records the failure.
- The constructor rejects a message without a request method and a content length above
  `SIZE_MAX`.

Layout:

- `wrappers.dfy` (module `Wrappers`): `Option` and `Result`.
- `default_strategy.dfy` (module `DefaultStrategy`): the strategy as values. It holds a
  `State` record of the synced fields, and functions `Update`, `RequestFinished`,
  `ReadDoneError`, `PrepareFinish`, `Prepare` and `NewDefault` whose contracts carry the
  strategy's promises. It also holds the invariant `Inv`, and runs of events (`Step`,
  `Run`) with lemmas about whole runs.
- `default_meta_request.dfy` (module `MetaRequestDefault`): classes `Request` and
  `DefaultMetaRequest`. Their fields are updated in place by methods whose bodies follow
  the C code branch by branch. `Update`, `PrepareRequest`, `RequestFinished`,
  `DeliveryCompleted` and `Cancel` are each proved to produce exactly the state the
  matching function of `DefaultStrategy` gives; all of them except `PrepareRequest`, which
  changes only the request, also keep `Inv`. The helper methods `SetSuccessSynced`,
  `SetFailSynced`, `StreamResponseBodySynced` and `Finish` are only steps inside those
  operations. Each is proved against its function, but on its own it need not keep `Inv`.

The base meta request's helpers are called by `source/s3_default_meta_request.c`, but their code is not part of
this model. Each one is given an assumed behaviour (in `DefaultStrategy`):

- `aws_s3_meta_request_set_success_synced` fills the finish-result slot only while it is
  empty. The code relies on this: lines 196-199 call it on the cancel/fail path too,
  where a failure is already recorded, and that failure must stay in place.
- `aws_s3_meta_request_set_fail_synced` is assumed to fill the slot only while it is
  empty as well. No line of
  `source/s3_default_meta_request.c` implies that. Only one clause depends on it: the
  clause of `DefaultStrategy.RequestFinished` saying that an error leaves an already set
  result unchanged.
- `aws_s3_meta_request_stream_response_body_synced` hands one more body part to delivery
  (`num_parts_delivery_sent + 1`).
- `aws_s3_meta_request_finish` is counted (`finishCalls`). Whatever else it does is the
  base engine's.
- Delivery of a body part (`num_parts_delivery_completed + 1`) and cancellation (a
  failure, never `Success`, recorded by the base engine) are environment steps: `DeliveryCompleted`,
  `Cancel`, and the events `DeliveryDone` and `Cancel`.

Inputs that come from outside become parameters:

- whether `out_request` was passed (`hasOutSlot`);
- how the body read ended (`ReadOutcome`: the future's error code and the bytes left in
  the buffer);
- the headers callback's return (`CallbackResult`, turned into an error by
  `aws_last_error_or_unknown`);
- the response status and headers the transport stored on the request;
- the platform's `SIZE_MAX`;
- the outcome of initialising the base meta request.

Three behaviours of the code are worth knowing:

- Preparation reads the body only when `content_length > 0` and the request was never
  prepared before (line 238). A re-prepared request keeps the body it already has.
- A call to `update` after it ended takes the cancel/fail branch again, ends again and
  calls `aws_s3_meta_request_finish` a second time (lines 170-213, `UpdateAfterEnd`).
  Keeping a second terminal callback away is up to `finish`, whose code is not part of
  this model. The run lemmas take the scheduler not to poll a finished meta request again.
- `out_request` is an `AWS_PRECONDITION`, but the code still tests it for NULL (line
  142). The model keeps that branch.

## Model

| member | source | states |
|---|---|---|
| `DefaultStrategy.NewDefault` | source/s3_default_meta_request.c:51-110 | creation succeeds iff the message has a request method, the content length is at most SIZE_MAX and the base initialises; a missing method or an oversized length is InvalidArgument; a base failure is passed on; the kept content length equals the given one |
| `DefaultStrategy.NewDefaultOn64BitOnlyChecksMethodAndBase` | source/s3_default_meta_request.c:72-80 | with a 64-bit size_t no uint64 content length is rejected; only the request method and base initialisation decide |
| `DefaultStrategy.LastErrorOrUnknown` | source/s3_default_meta_request.c:350-356 | a failing headers callback always yields an error, never success: its raised error, or Unknown when it raised none |
| `DefaultStrategy.Update` | source/s3_default_meta_request.c:121-217 | a request (tag 0, part 1, headers recorded) is handed out iff no finish result, not yet sent and a slot is given, and request_sent is then set; no slot means work remains and nothing changes; with no finish result work remains until the request completed and at least one body delivery completed; with a finish result an unsent request ends at once and a sent one waits for completion and delivered >= sent; waiting changes nothing; ending hands out no request, records success with the cached status unless a result is already set, and calls finish once |
| `DefaultStrategy.UpdateKeepsInv` | source/s3_default_meta_request.c:121-217 | update keeps the invariant: requests created equals 1 exactly when request_sent, and after finish a result is recorded and nothing is in flight; this holds also when update is called after the end |
| `DefaultStrategy.EndMeansDrained` | source/s3_default_meta_request.c:158-189 | when update reports no work remaining, the sent request has completed and every body part handed to delivery was delivered, and a finish result is set |
| `DefaultStrategy.UpdateAfterEnd` | source/s3_default_meta_request.c:170-216 | after an end, update ends again, hands out nothing, and changes nothing but invoking finish once more |
| `DefaultStrategy.RequestFinished` | source/s3_default_meta_request.c:336-377 | the headers callback runs iff success, headers present and callback installed, and is removed afterwards; a transport error is kept, a failing callback replaces success by its error; the request is complete with the status cached; on success the body is streamed and the finish result untouched, on error nothing is streamed and the failure is recorded unless a result was set; nothing else changes |
| `DefaultStrategy.RequestFinishedKeepsInv` | source/s3_default_meta_request.c:336-377 | finishing the request in flight keeps the invariant: at most one body handed to delivery, the headers callback run at most once |
| `DefaultStrategy.ReadDoneError` | source/s3_default_meta_request.c:254-283 | a read error is passed on unchanged; a successful read is success iff it filled the buffer's capacity, IncorrectContentLength otherwise |
| `DefaultStrategy.PrepareFinish` | source/s3_default_meta_request.c:286-334 | an error builds no message and completes with that error; otherwise the message carries the body, Content-MD5 iff no flexible checksum location and MD5 requested, and the validation-mode header iff response validation is configured |
| `DefaultStrategy.Prepare` | source/s3_default_meta_request.c:220-251 | without content or on a re-preparation it succeeds at once with the body the request holds; otherwise it succeeds iff the read raised nothing and filled content_length bytes, attaching them; a read error is returned unchanged and a short read is IncorrectContentLength; the header decisions follow the configuration |
| `DefaultStrategy.InitialSatisfiesInv` | source/s3_default_meta_request.c:82-105 | the zero-initialised meta request satisfies the invariant |
| `DefaultStrategy.StepKeepsRunInv` | source/s3_default_meta_request.c:121-377 | every event (poll until the end, report of the request in flight, a delivery, a cancellation) keeps the invariant and finish called at most once |
| `DefaultStrategy.RunKeepsRunInv` | source/s3_default_meta_request.c:121-377 | any sequence of events keeps the invariant and finish called at most once |
| `DefaultStrategy.RunFromCreation` | source/s3_default_meta_request.c:138-156 | over any run from creation at most one request is created, finish is invoked at most once, the headers callback runs at most once, and once finish ran a result is recorded with nothing in flight |
| `DefaultStrategy.NoRequestAfterFinishResult` | source/s3_default_meta_request.c:138-189 | once a finish result is set, no sequence of events creates a request and the result stays set |
| `DefaultStrategy.SuccessfulTransfer` | source/s3_default_meta_request.c:121-377 | poll, poll, response 200, poll, delivery, poll: one request, one finish, success with status 200 |
| `DefaultStrategy.HeadersCallbackFailure` | source/s3_default_meta_request.c:347-372 | a headers callback that raises e on a successful response runs once, streams nothing, and the transfer ends failed with e |
| `DefaultStrategy.CancelBeforeSend` | source/s3_default_meta_request.c:170-175 | a cancellation with an error e before the first poll ends at the next poll with Failed(e) and no request created |
| `MetaRequestDefault.Request.constructor` | source/s3_default_meta_request.c:146 | a new request carries the given tag, part number and flag, with no body, message or response |
| `MetaRequestDefault.DefaultMetaRequest.constructor` | source/s3_default_meta_request.c:82-109 | a configuration whose content length fits the platform's SIZE_MAX (what `NewDefault` accepts) gives the zero-initialised state, which satisfies the invariant |
| `MetaRequestDefault.DefaultMetaRequest.Update` | source/s3_default_meta_request.c:121-217 | the in-place update produces exactly `DefaultStrategy.Update`'s new state, result and request (a fresh, unprepared request), and keeps the invariant |
| `MetaRequestDefault.DefaultMetaRequest.PrepareRequest` | source/s3_default_meta_request.c:220-334 | the request's body buffer, capacity and message become exactly what `DefaultStrategy.Prepare` decides, the returned code is its error, and on an error the message is left as it was |
| `MetaRequestDefault.DefaultMetaRequest.RequestFinished` | source/s3_default_meta_request.c:336-377 | the in-place update produces exactly `DefaultStrategy.RequestFinished`'s state from the request's stored status and headers, and keeps the invariant |
| `MetaRequestDefault.TransferOnce` | source/s3_default_meta_request.c:121-377 | a client driving the object: one request handed out, a second poll hands none, a full read prepares it, the response and its delivery lead to success with the response status, finish called once |

## Left out

- Mutex lock and unlock (lines 136, 201, 363, 374): each critical section is one atomic step; the locking only gives thread safety.
- Futures and callback registration (`aws_future_*`, lines 229-244, 325-332): preparation is one synchronous step that returns the error its future would complete with.
- HTTP message construction and header plumbing (`aws_s3_message_util_*`, `aws_http_headers_set`, `aws_s3_request_setup_send_data`): only the decisions are modelled, that is which headers are added and which body is attached; the wire content is not.
- MD5 and checksum computation: opaque foreign calls; only whether Content-MD5 is added is modelled.
- Logging, allocation and `s_s3_meta_request_default_destroy`: they have no behaviour to model.
- The base meta request's helpers (`set_success_synced`, `set_fail_synced`, `stream_response_body_synced`, `aws_s3_meta_request_finish`, `aws_s3_meta_request_read_body`, `aws_s3_meta_request_init_base`): their code is not part of this model; the first four have the assumed behaviour stated above, the read and the base initialisation are parameters.
- The vtable entries implemented elsewhere (`send_request_finish`, `init_signing_date_time`, `sign_request`, `finish`): not part of this model.
- The `flags` parameter of `update` (line 125): unused by the code.
- Numeric values of the error codes: codes are told apart by name only; `Other` carries a nonzero code, since 0 is `AWS_ERROR_SUCCESS`.
- `include/aws/s3/private/s3_auto_ranged_put.h`: it holds only declarations (a request-tag enum, a struct of fields, a constructor prototype); the code that gives those fields behaviour is not part of this model.
- `MetaRequestDefault.DefaultMetaRequest.RequestFinished`: it requires the one request in flight (sent, not yet completed), since the engine reports each request once after it was sent; the identity of the request object passed in is not checked.
- `DefaultStrategy.StepKeepsRunInv`, `DefaultStrategy.RunKeepsRunInv`, `DefaultStrategy.RunFromCreation`: "finish invoked at most once" holds only under the scheduler's rule that a finished meta request is no longer polled (`Step` ignores a `Poll` once `finish` was called); the strategy itself calls `finish` on every poll after the end (`UpdateAfterEnd`).
