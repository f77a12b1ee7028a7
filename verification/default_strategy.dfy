/**
 * The default (single-request) meta-request strategy of the S3 client, as values.
 *
 * Every operation of the strategy is a deterministic transition over a small
 * state record once its critical sections are read as atomic steps. This module
 * states those transitions as functions whose contracts carry the strategy's
 * promises, and proves the properties that relate several calls (at most one
 * request over a whole run, the end only after delivery has drained). The
 * imperative class in module MetaRequestDefault is proved against these functions.
 */
module DefaultStrategy {
  import opened Wrappers

  // ---------------------------------------------------------------------------
  // Error codes, configuration and construction
  // ---------------------------------------------------------------------------

  /** A numeric error code other than AWS_ERROR_SUCCESS, which is 0. */
  type NonzeroCode = n: nat | n != 0 witness 1

  /** The error codes the strategy tells apart; their numeric values are not modelled. */
  datatype ErrorCode =
    | Success                 // AWS_ERROR_SUCCESS (also AWS_OP_SUCCESS)
    | InvalidArgument         // AWS_ERROR_INVALID_ARGUMENT
    | IncorrectContentLength  // AWS_ERROR_S3_INCORRECT_CONTENT_LENGTH
    | Unknown                 // AWS_ERROR_UNKNOWN
    | Other(code: NonzeroCode) // any other code a collaborator raises

  /** aws_last_error_or_unknown: the last raised error, or Unknown when none was raised. */
  function LastErrorOrUnknown(lastError: ErrorCode): (e: ErrorCode)
    ensures e != Success
    ensures lastError != Success ==> e == lastError
    ensures lastError == Success ==> e == Unknown
  {
    if lastError == Success then Unknown else lastError
  }

  type uint64 = x: int | 0 <= x < 0x1_0000_0000_0000_0000

  /** The width of size_t on the platform the client is built for. */
  datatype Platform = Platform32 | Platform64

  function SizeMax(p: Platform): nat
  {
    match p
    case Platform32 => 0xFFFF_FFFF
    case Platform64 => 0xFFFF_FFFF_FFFF_FFFF
  }

  /** Where a flexible checksum goes; LocationNone is AWS_SCL_NONE. */
  datatype ChecksumLocation = LocationNone | LocationHeader | LocationTrailer

  datatype ChecksumConfig = ChecksumConfig(location: ChecksumLocation, validateResponseChecksum: bool)

  /** What a default meta request keeps from its creation options. */
  datatype Config = Config(contentLength: nat, shouldComputeContentMd5: bool, checksum: ChecksumConfig)

  /**
   * aws_s3_meta_request_default_new, its validation: a message without a request
   * method and a content length above SIZE_MAX are rejected with InvalidArgument;
   * a failure to initialise the base meta request (an external step, given as
   * `baseInit`) is passed on.
   */
  function NewDefault(
    platform: Platform,
    contentLength: uint64,
    hasRequestMethod: bool,
    shouldComputeContentMd5: bool,
    checksum: ChecksumConfig,
    baseInit: ErrorCode
  ): (r: Result<Config, ErrorCode>)
    ensures r.Ok? <==> hasRequestMethod && contentLength <= SizeMax(platform) && baseInit == Success
    ensures !hasRequestMethod ==> r == Err(InvalidArgument)
    ensures hasRequestMethod && contentLength > SizeMax(platform) ==> r == Err(InvalidArgument)
    ensures hasRequestMethod && contentLength <= SizeMax(platform) && baseInit != Success ==> r == Err(baseInit)
    ensures r.Ok? ==> r.value.contentLength == contentLength && r.value.contentLength <= SizeMax(platform)
    ensures r.Ok? ==> r.value.shouldComputeContentMd5 == shouldComputeContentMd5 && r.value.checksum == checksum
  {
    if !hasRequestMethod then Err(InvalidArgument)
    else if contentLength > SizeMax(platform) then Err(InvalidArgument)
    else if baseInit != Success then Err(baseInit)
    else Ok(Config(contentLength, shouldComputeContentMd5, checksum))
  }

  /** On a 64-bit platform every uint64 content length fits in size_t, so only the other two checks can reject. */
  lemma NewDefaultOn64BitOnlyChecksMethodAndBase(
    contentLength: uint64, hasRequestMethod: bool, md5: bool, checksum: ChecksumConfig, baseInit: ErrorCode)
    ensures NewDefault(Platform64, contentLength, hasRequestMethod, md5, checksum, baseInit).Ok?
        <==> hasRequestMethod && baseInit == Success
  {
  }

  // ---------------------------------------------------------------------------
  // The synced state and the base engine's helpers
  // ---------------------------------------------------------------------------

  /** The base meta request's terminal-result slot. */
  datatype FinishResult = Succeeded(status: int) | Failed(error: ErrorCode)

  /**
   * Everything the strategy reads or writes: the strategy's synced data
   * (request_sent, request_completed, request_error_code, cached_response_status),
   * the base's synced data (finish-result slot, body-delivery counters), the
   * headers callback slot, and three counters of calls made (requests created,
   * finish invoked, headers callback run) that the properties are stated over.
   */
  datatype State = State(
    requestSent: bool,
    requestCompleted: bool,
    requestErrorCode: ErrorCode,
    cachedResponseStatus: int,
    finishResult: Option<FinishResult>,
    deliverySent: nat,
    deliveryCompleted: nat,
    headersCallbackSet: bool,
    requestsCreated: nat,
    finishCalls: nat,
    headersCallbackCalls: nat)

  /** A freshly created default meta request (zero-initialised). */
  function Initial(hasHeadersCallback: bool): State
  {
    State(false, false, Success, 0, None, 0, 0, hasHeadersCallback, 0, 0, 0)
  }

  /**
   * Assumed behaviour of aws_s3_meta_request_set_success_synced (its code is not
   * part of this model): it fills the finish-result slot only when it is empty.
   * update relies on it, since it also calls it on the cancel/fail path.
   */
  function SetSuccessSynced(s: State, status: int): State
  {
    if s.finishResult.None? then s.(finishResult := Some(Succeeded(status))) else s
  }

  /**
   * Assumed behaviour of aws_s3_meta_request_set_fail_synced: it fills the slot only
   * when it is empty. No line of source/s3_default_meta_request.c implies it; of the
   * results proved here only RequestFinished's clause for an error with a result already set depends on it.
   */
  function SetFailSynced(s: State, error: ErrorCode): State
  {
    if s.finishResult.None? then s.(finishResult := Some(Failed(error))) else s
  }

  /** Assumed behaviour of aws_s3_meta_request_stream_response_body_synced: one more body part handed to delivery. */
  function StreamResponseBodySynced(s: State): State
  {
    s.(deliverySent := s.deliverySent + 1)
  }

  /** aws_s3_meta_request_finish, counted; what it does further is the base engine's. */
  function Finish(s: State): State
  {
    s.(finishCalls := s.finishCalls + 1)
  }

  // ---------------------------------------------------------------------------
  // update
  // ---------------------------------------------------------------------------

  /** What aws_s3_request_new is asked for: tag, part number and the record-response-headers flag. */
  datatype RequestDesc = RequestDesc(tag: nat, partNumber: nat, recordResponseHeaders: bool)

  /** The one request of the default strategy: tag 0, part number 1, response headers recorded. */
  const SingleRequest := RequestDesc(0, 1, true)

  datatype UpdateResult = UpdateResult(workRemaining: bool, request: Option<RequestDesc>, next: State)

  /** The no_work_remaining label: record success with the cached status, then finish. */
  function EndUpdate(s: State): UpdateResult
  {
    UpdateResult(false, None, Finish(SetSuccessSynced(s, s.cachedResponseStatus)))
  }

  /** The has_work_remaining label, with nothing created. */
  function Wait(s: State): UpdateResult
  {
    UpdateResult(true, None, s)
  }

  /**
   * s_s3_meta_request_default_update. `hasOutSlot` says whether the caller passed
   * an out_request slot. On the normal path (no finish result) it creates the single
   * request once, then waits for its completion and for the body's delivery; on the
   * cancel/fail path it waits only for what is in flight to drain.
   */
  function Update(s: State, hasOutSlot: bool): (r: UpdateResult)
    // a request is handed out exactly when none was sent, nothing has ended it, and there is a slot
    ensures r.request.Some? <==> s.finishResult.None? && !s.requestSent && hasOutSlot
    ensures r.request.Some? ==>
      r.workRemaining && r.request.value == SingleRequest &&
      r.next == s.(requestSent := true, requestsCreated := s.requestsCreated + 1)
    // no slot: work remains, and nothing changes
    ensures s.finishResult.None? && !s.requestSent && !hasOutSlot ==> r.workRemaining && r.next == s
    // normal path: the end comes only once the request completed and its body was delivered
    ensures s.finishResult.None? ==>
      (r.workRemaining <==> !(s.requestSent && s.requestCompleted && s.deliveryCompleted >= 1))
    // cancel/fail path: an unsent request ends at once, a sent one after it completed and delivery drained
    ensures s.finishResult.Some? ==>
      (r.workRemaining <==> s.requestSent && (!s.requestCompleted || s.deliveryCompleted < s.deliverySent))
    // waiting changes nothing
    ensures r.workRemaining && r.request.None? ==> r.next == s
    // ending: no request, success recorded with the cached status unless a result is already set, finish once
    ensures !r.workRemaining ==>
      r.request.None? &&
      r.next.finishCalls == s.finishCalls + 1 &&
      r.next.finishResult == (if s.finishResult.None? then Some(Succeeded(s.cachedResponseStatus)) else s.finishResult) &&
      r.next.(finishCalls := s.finishCalls, finishResult := s.finishResult) == s
  {
    if s.finishResult.None? then
      if !s.requestSent then
        if !hasOutSlot then Wait(s)
        else UpdateResult(true, Some(SingleRequest), s.(requestSent := true, requestsCreated := s.requestsCreated + 1))
      else if !s.requestCompleted then Wait(s)
      else if s.deliveryCompleted < 1 then Wait(s)
      else EndUpdate(s)
    else
      if !s.requestSent then EndUpdate(s)
      else if !s.requestCompleted then Wait(s)
      else if s.deliveryCompleted < s.deliverySent then Wait(s)
      else EndUpdate(s)
  }

  // ---------------------------------------------------------------------------
  // request_finished
  // ---------------------------------------------------------------------------

  /** What the user's headers callback returned: AWS_OP_SUCCESS, or failure with the error it raised. */
  datatype CallbackResult = Proceed | Raise(lastError: ErrorCode)

  /** The headers callback runs on a successful request that has response headers, while it is still installed. */
  predicate RunsHeadersCallback(s: State, error: ErrorCode, hasHeaders: bool)
  {
    error == Success && s.headersCallbackSet && hasHeaders
  }

  /**
   * s_s3_meta_request_default_request_finished: the headers callback (at most once),
   * then, under the lock, completion, status and error code are recorded and the
   * body is streamed on success or the failure recorded otherwise.
   */
  function RequestFinished(s: State, error: ErrorCode, status: int, hasHeaders: bool, callback: CallbackResult): (r: State)
    ensures r.requestCompleted && r.cachedResponseStatus == status
    // the callback runs only when installed, on success with headers, and is then removed
    ensures RunsHeadersCallback(s, error, hasHeaders) ==>
      !r.headersCallbackSet && r.headersCallbackCalls == s.headersCallbackCalls + 1
    ensures !RunsHeadersCallback(s, error, hasHeaders) ==>
      r.headersCallbackSet == s.headersCallbackSet && r.headersCallbackCalls == s.headersCallbackCalls
    // a transport error is kept; a failing callback turns success into its error
    ensures error != Success ==> r.requestErrorCode == error
    ensures RunsHeadersCallback(s, error, hasHeaders) && callback.Raise? ==>
      r.requestErrorCode == LastErrorOrUnknown(callback.lastError)
    ensures r.requestErrorCode == Success <==> error == Success && !(RunsHeadersCallback(s, error, hasHeaders) && callback.Raise?)
    // exactly one of: stream the body, or record the failure
    ensures r.requestErrorCode == Success ==> r.deliverySent == s.deliverySent + 1 && r.finishResult == s.finishResult
    ensures r.requestErrorCode != Success ==>
      r.deliverySent == s.deliverySent &&
      r.finishResult == (if s.finishResult.None? then Some(Failed(r.requestErrorCode)) else s.finishResult)
    // nothing else changes
    ensures r.requestSent == s.requestSent && r.requestsCreated == s.requestsCreated
    ensures r.deliveryCompleted == s.deliveryCompleted && r.finishCalls == s.finishCalls
  {
    var runs := RunsHeadersCallback(s, error, hasHeaders);
    var error' := if runs && callback.Raise? then LastErrorOrUnknown(callback.lastError) else error;
    var s1 := if runs then s.(headersCallbackSet := false, headersCallbackCalls := s.headersCallbackCalls + 1) else s;
    var s2 := s1.(cachedResponseStatus := status, requestCompleted := true, requestErrorCode := error');
    if error' == Success then StreamResponseBodySynced(s2) else SetFailSynced(s2, error')
  }

  // ---------------------------------------------------------------------------
  // prepare_request
  // ---------------------------------------------------------------------------

  /** The body is read only on a request's first preparation, and only when there is content. */
  predicate NeedsBodyRead(config: Config, numTimesPrepared: nat)
  {
    config.contentLength > 0 && numTimesPrepared == 0
  }

  /** How the body read ended: the future's error code and the bytes it left in the buffer. */
  datatype ReadOutcome = ReadOutcome(error: ErrorCode, bytes: seq<bv8>)

  /**
   * s_s3_default_prepare_request_on_read_done: a read error is passed on unchanged;
   * a read that left the buffer short of its capacity is IncorrectContentLength.
   */
  function ReadDoneError(capacity: nat, read: ReadOutcome): (e: ErrorCode)
    requires |read.bytes| <= capacity
    ensures read.error != Success ==> e == read.error
    ensures read.error == Success ==> (e == Success <==> |read.bytes| == capacity)
    ensures read.error == Success && |read.bytes| < capacity ==> e == IncorrectContentLength
  {
    if read.error != Success then read.error
    else if |read.bytes| < capacity then IncorrectContentLength
    else Success
  }

  /** The decisions taken while building the wire message: which headers are added, and the body attached. */
  datatype Message = Message(contentMd5: bool, validationModeHeader: bool, body: seq<bv8>)

  /**
   * s_s3_default_prepare_request_finish: on an error no message is built and the
   * error completes the preparation; otherwise Content-MD5 is added only when no
   * flexible checksum is configured and MD5 was asked for, the validation-mode
   * header only when response validation is on, and the body is attached.
   */
  function PrepareFinish(config: Config, body: seq<bv8>, error: ErrorCode): (r: Result<Message, ErrorCode>)
    ensures r.Err? <==> error != Success
    ensures r.Err? ==> r.error == error
    ensures r.Ok? ==> r.value.body == body
    ensures r.Ok? ==>
      (r.value.contentMd5 <==> config.checksum.location == LocationNone && config.shouldComputeContentMd5)
    ensures r.Ok? ==> (r.value.validationModeHeader <==> config.checksum.validateResponseChecksum)
  {
    if error != Success then Err(error)
    else
      var flexibleChecksum := config.checksum.location != LocationNone;
      Ok(Message(!flexibleChecksum && config.shouldComputeContentMd5, config.checksum.validateResponseChecksum, body))
  }

  /** The body a preparation attaches: the bytes just read, or the body the request already holds. */
  function PreparedBody(config: Config, numTimesPrepared: nat, previousBody: seq<bv8>, read: ReadOutcome): seq<bv8>
  {
    if NeedsBodyRead(config, numTimesPrepared) then read.bytes else previousBody
  }

  /**
   * s_s3_default_prepare_request with its two continuations, as one synchronous step.
   * `previousBody` is the request's body before this preparation; `read` is how the
   * body read would end, and is looked at only when the body is read.
   */
  function Prepare(config: Config, numTimesPrepared: nat, previousBody: seq<bv8>, read: ReadOutcome): (r: Result<Message, ErrorCode>)
    requires NeedsBodyRead(config, numTimesPrepared) ==> |read.bytes| <= config.contentLength
    // no read needed: straight to the final step with success, keeping the body the request has
    ensures !NeedsBodyRead(config, numTimesPrepared) ==> r.Ok? && r.value.body == previousBody
    // a read: success exactly when it raised nothing and filled the whole content length
    ensures NeedsBodyRead(config, numTimesPrepared) ==>
      (r.Ok? <==> read.error == Success && |read.bytes| == config.contentLength)
    ensures NeedsBodyRead(config, numTimesPrepared) && r.Ok? ==> r.value.body == read.bytes
    ensures NeedsBodyRead(config, numTimesPrepared) && read.error != Success ==> r == Err(read.error)
    ensures NeedsBodyRead(config, numTimesPrepared) && read.error == Success && |read.bytes| < config.contentLength ==>
      r == Err(IncorrectContentLength)
    // the header decisions do not depend on the body
    ensures r.Ok? ==>
      (r.value.contentMd5 <==> config.checksum.location == LocationNone && config.shouldComputeContentMd5) &&
      (r.value.validationModeHeader <==> config.checksum.validateResponseChecksum)
  {
    if NeedsBodyRead(config, numTimesPrepared) then
      PrepareFinish(config, read.bytes, ReadDoneError(config.contentLength, read))
    else
      PrepareFinish(config, previousBody, Success)
  }

  // ---------------------------------------------------------------------------
  // The invariant of the synced state, and runs of events
  // ---------------------------------------------------------------------------

  /**
   * What holds of every reachable state: the request counter mirrors request_sent
   * (so at most one request), completion follows sending, at most the one body is
   * handed to delivery and only after completion, the headers callback has run at
   * most once and is gone once it has, and once finish was invoked a result is
   * recorded and nothing is in flight.
   */
  ghost predicate Inv(s: State)
  {
    s.requestsCreated == (if s.requestSent then 1 else 0) &&
    (s.requestCompleted ==> s.requestSent) &&
    s.deliveryCompleted <= s.deliverySent <= 1 &&
    (s.deliverySent == 1 ==> s.requestCompleted) &&
    s.headersCallbackCalls + (if s.headersCallbackSet then 1 else 0) <= 1 &&
    (s.headersCallbackCalls == 1 ==> s.requestCompleted) &&
    (s.finishCalls > 0 ==>
      s.finishResult.Some? && (s.requestSent ==> s.requestCompleted) && s.deliveryCompleted == s.deliverySent)
  }

  lemma InitialSatisfiesInv(hasHeadersCallback: bool)
    ensures Inv(Initial(hasHeadersCallback))
  {
  }

  /** update keeps the invariant, also when it is called again after it has ended. */
  lemma UpdateKeepsInv(s: State, hasOutSlot: bool)
    requires Inv(s)
    ensures Inv(Update(s, hasOutSlot).next)
  {
  }

  /**
   * When update declares the end, nothing is in flight: the request (if sent) has
   * completed and every body part handed to delivery has been delivered.
   */
  lemma EndMeansDrained(s: State, hasOutSlot: bool)
    requires Inv(s)
    requires !Update(s, hasOutSlot).workRemaining
    ensures s.requestSent ==> s.requestCompleted
    ensures s.deliveryCompleted == s.deliverySent
    ensures Update(s, hasOutSlot).next.finishResult.Some?
  {
  }

  /**
   * Calling update again after it ended ends again, hands out nothing, and changes
   * nothing but invoking finish once more. Keeping a second terminal callback away
   * is up to finish, whose code is not part of this model.
   */
  lemma UpdateAfterEnd(s: State, hasOutSlot: bool)
    requires Inv(s) && s.finishCalls > 0
    ensures var r := Update(s, hasOutSlot);
      !r.workRemaining && r.request.None? && r.next == s.(finishCalls := s.finishCalls + 1)
  {
  }

  /** request_finished keeps the invariant when it reports the request that is in flight. */
  lemma RequestFinishedKeepsInv(s: State, error: ErrorCode, status: int, hasHeaders: bool, callback: CallbackResult)
    requires Inv(s) && s.requestSent && !s.requestCompleted
    ensures Inv(RequestFinished(s, error, status, hasHeaders, callback))
  {
  }

  /** What happens to a default meta request, one step at a time. */
  datatype Event =
    | Poll(hasOutSlot: bool)  // the scheduler calls update
    | Finished(error: ErrorCode, status: int, hasHeaders: bool, callback: CallbackResult)  // the transport reports the request
    | DeliveryDone             // the base engine has delivered one body part to the caller
    | Cancel(error: ErrorCode) // the base engine records a failure (cancellation or a client error)

  /**
   * One event. The environment keeps to the protocol the engine relies on: the
   * scheduler stops polling once update reported no work remaining, the transport
   * reports only the request in flight and only once, delivery completes only
   * what was handed to it, and a cancellation carries an error. Any other event
   * is a no-op.
   */
  function Step(s: State, e: Event): State
  {
    match e
    case Poll(hasOutSlot) =>
      if s.finishCalls == 0 then Update(s, hasOutSlot).next else s
    case Finished(error, status, hasHeaders, callback) =>
      if s.requestSent && !s.requestCompleted then RequestFinished(s, error, status, hasHeaders, callback) else s
    case DeliveryDone =>
      if s.deliveryCompleted < s.deliverySent then s.(deliveryCompleted := s.deliveryCompleted + 1) else s
    case Cancel(error) =>
      if error != Success then SetFailSynced(s, error) else s
  }

  function Run(s: State, events: seq<Event>): State
    decreases |events|
  {
    if events == [] then s else Run(Step(s, events[0]), events[1..])
  }

  /** The invariant of a run: Inv, and finish invoked at most once. */
  ghost predicate RunInv(s: State)
  {
    Inv(s) && s.finishCalls <= 1
  }

  lemma StepKeepsRunInv(s: State, e: Event)
    requires RunInv(s)
    ensures RunInv(Step(s, e))
  {
    match e
    case Poll(hasOutSlot) =>
      if s.finishCalls == 0 {
        UpdateKeepsInv(s, hasOutSlot);
      }
    case Finished(error, status, hasHeaders, callback) =>
      if s.requestSent && !s.requestCompleted {
        RequestFinishedKeepsInv(s, error, status, hasHeaders, callback);
      }
    case DeliveryDone =>
    case Cancel(error) =>
  }

  lemma {:induction false} RunKeepsRunInv(s: State, events: seq<Event>)
    requires RunInv(s)
    ensures RunInv(Run(s, events))
    decreases |events|
  {
    if events != [] {
      StepKeepsRunInv(s, events[0]);
      RunKeepsRunInv(Step(s, events[0]), events[1..]);
    }
  }

  /**
   * Over any run from creation: at most one request is ever created, finish is
   * invoked at most once, the headers callback runs at most once, and if finish
   * was invoked a terminal result is recorded with nothing left in flight.
   */
  lemma RunFromCreation(hasHeadersCallback: bool, events: seq<Event>)
    ensures var t := Run(Initial(hasHeadersCallback), events);
      t.requestsCreated <= 1 && t.finishCalls <= 1 && t.headersCallbackCalls <= 1 &&
      (t.finishCalls == 1 ==>
        t.finishResult.Some? && (t.requestSent ==> t.requestCompleted) && t.deliveryCompleted == t.deliverySent)
  {
    InitialSatisfiesInv(hasHeadersCallback);
    RunKeepsRunInv(Initial(hasHeadersCallback), events);
  }

  /** Once a finish result is recorded, no later event creates a request. */
  lemma {:induction false} NoRequestAfterFinishResult(s: State, events: seq<Event>)
    requires s.finishResult.Some?
    ensures Run(s, events).requestsCreated == s.requestsCreated
    ensures Run(s, events).finishResult.Some?
    decreases |events|
  {
    if events != [] {
      var e := events[0];
      assert Step(s, e).requestsCreated == s.requestsCreated && Step(s, e).finishResult.Some?;
      NoRequestAfterFinishResult(Step(s, e), events[1..]);
    }
  }

  // ---------------------------------------------------------------------------
  // Scenarios
  // ---------------------------------------------------------------------------

  /** The ordinary transfer: one request, completed with status 200, its body delivered, then success with 200. */
  lemma SuccessfulTransfer()
    ensures var t := Run(Initial(false), [Poll(true), Poll(true), Finished(Success, 200, true, Proceed), Poll(true), DeliveryDone, Poll(true)]);
      t.requestsCreated == 1 && t.finishCalls == 1 && t.finishResult == Some(Succeeded(200))
  {
  }

  /** A headers callback that fails turns a successful response into a failed transfer with the callback's error. */
  lemma HeadersCallbackFailure(e: ErrorCode)
    requires e != Success
    ensures var t := Run(Initial(true), [Poll(true), Finished(Success, 200, true, Raise(e)), Poll(true)]);
      t.finishCalls == 1 && t.finishResult == Some(Failed(e)) && t.headersCallbackCalls == 1 && t.deliverySent == 0
  {
    var s1 := Step(Initial(true), Poll(true));
    var s2 := Step(s1, Finished(Success, 200, true, Raise(e)));
    var s3 := Step(s2, Poll(true));
    var events := [Poll(true), Finished(Success, 200, true, Raise(e)), Poll(true)];
    assert Run(s2, events[2..]) == s3;
    assert Run(s1, events[1..]) == Run(s2, events[2..]);
  }

  /** Cancelled before the request was sent: the next update ends at once with the failure and creates nothing. */
  lemma CancelBeforeSend(e: ErrorCode)
    requires e != Success
    ensures var t := Run(Initial(false), [Cancel(e), Poll(true)]);
      t.requestsCreated == 0 && t.finishCalls == 1 && t.finishResult == Some(Failed(e))
  {
    var s1 := Step(Initial(false), Cancel(e));
    var s2 := Step(s1, Poll(true));
    var events := [Cancel(e), Poll(true)];
    assert Run(s1, events[1..]) == s2;
  }
}
