/**
 * The default meta request as the source keeps it: an object whose operations
 * update its fields in place, and the request object it hands to the scheduler.
 * Each critical section is one atomic step. Update, PrepareRequest,
 * RequestFinished, DeliveryCompleted and Cancel are each proved against
 * module DefaultStrategy; all of them but PrepareRequest, which changes only the
 * request, keep Valid(). The helper methods SetSuccessSynced, SetFailSynced,
 * StreamResponseBodySynced and Finish are only steps inside those operations:
 * each matches its function, but on its own it need not keep Valid().
 */
module MetaRequestDefault {
  import opened Wrappers
  import opened DefaultStrategy

  /** One network request: what it was created as, its body buffer, its prepared message and its response. */
  class Request {
    const tag: nat
    const partNumber: nat
    const recordResponseHeaders: bool
    var numTimesPrepared: nat
    var bodyCapacity: nat
    var body: seq<bv8>
    var message: Option<Message>
    var responseStatus: int
    var hasResponseHeaders: bool

    /** aws_s3_request_new: nothing prepared, no body, no response yet. */
    constructor (desc: RequestDesc)
      ensures Describe() == desc
      ensures numTimesPrepared == 0 && bodyCapacity == 0 && body == [] && message == None
      ensures responseStatus == 0 && !hasResponseHeaders
    {
      tag, partNumber, recordResponseHeaders := desc.tag, desc.partNumber, desc.recordResponseHeaders;
      numTimesPrepared, bodyCapacity, body, message := 0, 0, [], None;
      responseStatus, hasResponseHeaders := 0, false;
    }

    function Describe(): RequestDesc
    {
      RequestDesc(tag, partNumber, recordResponseHeaders)
    }
  }

  class DefaultMetaRequest {
    const config: Config

    // the strategy's synced data
    var requestSent: bool
    var requestCompleted: bool
    var requestErrorCode: ErrorCode
    var cachedResponseStatus: int

    // the base meta request's synced data and callback slot
    var finishResult: Option<FinishResult>
    var numPartsDeliverySent: nat
    var numPartsDeliveryCompleted: nat
    var headersCallbackSet: bool

    // calls made, which the invariant is stated over
    var requestsCreated: nat
    var finishCalls: nat
    var headersCallbackCalls: nat

    function State(): DefaultStrategy.State
      reads this
    {
      DefaultStrategy.State(
        requestSent, requestCompleted, requestErrorCode, cachedResponseStatus,
        finishResult, numPartsDeliverySent, numPartsDeliveryCompleted, headersCallbackSet,
        requestsCreated, finishCalls, headersCallbackCalls)
    }

    ghost predicate Valid()
      reads this
    {
      Inv(State())
    }

    /**
     * The object aws_s3_meta_request_default_new returns once its validation passed:
     * the content length fits the platform's size_t.
     */
    constructor (platform: Platform, config: Config, hasHeadersCallback: bool)
      requires config.contentLength <= SizeMax(platform)
      ensures Valid()
      ensures this.config == config && State() == Initial(hasHeadersCallback)
    {
      this.config := config;
      requestSent, requestCompleted, requestErrorCode, cachedResponseStatus := false, false, Success, 0;
      finishResult, numPartsDeliverySent, numPartsDeliveryCompleted := None, 0, 0;
      headersCallbackSet := hasHeadersCallback;
      requestsCreated, finishCalls, headersCallbackCalls := 0, 0, 0;
      InitialSatisfiesInv(hasHeadersCallback);
    }

    // --- the base engine's helpers, with their assumed behaviour (see DefaultStrategy) ---

    method SetSuccessSynced(status: int)
      modifies this
      ensures State() == DefaultStrategy.SetSuccessSynced(old(State()), status)
    {
      if finishResult.None? {
        finishResult := Some(Succeeded(status));
      }
    }

    method SetFailSynced(error: ErrorCode)
      modifies this
      ensures State() == DefaultStrategy.SetFailSynced(old(State()), error)
    {
      if finishResult.None? {
        finishResult := Some(Failed(error));
      }
    }

    method StreamResponseBodySynced()
      modifies this
      ensures State() == DefaultStrategy.StreamResponseBodySynced(old(State()))
    {
      numPartsDeliverySent := numPartsDeliverySent + 1;
    }

    method Finish()
      modifies this
      ensures State() == DefaultStrategy.Finish(old(State()))
    {
      finishCalls := finishCalls + 1;
    }

    // --- the strategy's operations ---

    /**
     * s_s3_meta_request_default_update; `hasOutSlot` is whether out_request was
     * given. Returns whether work remains and the request written to out_request.
     */
    method Update(hasOutSlot: bool) returns (workRemaining: bool, outRequest: Request?)
      requires Valid()
      modifies this
      ensures Valid()
      ensures var r := DefaultStrategy.Update(old(State()), hasOutSlot);
        State() == r.next && workRemaining == r.workRemaining && (outRequest != null <==> r.request.Some?)
      ensures outRequest != null ==>
        fresh(outRequest) && outRequest.Describe() == SingleRequest &&
        outRequest.numTimesPrepared == 0 && outRequest.body == [] && outRequest.message == None
    {
      ghost var s := State();
      UpdateKeepsInv(s, hasOutSlot);
      var request: Request? := null;
      workRemaining := false;
      // BEGIN CRITICAL SECTION
      if finishResult.None? {
        if !requestSent {
          if hasOutSlot {
            request := new Request(SingleRequest);
            requestsCreated := requestsCreated + 1;
            requestSent := true;
          }
          workRemaining := true;
        } else if !requestCompleted {
          workRemaining := true;
        } else if numPartsDeliveryCompleted < 1 {
          workRemaining := true;
        }
      } else {
        if !requestSent {
          // cancelling before the request was sent: nothing to wait for
        } else if !requestCompleted {
          workRemaining := true;
        } else if numPartsDeliveryCompleted < numPartsDeliverySent {
          workRemaining := true;
        }
      }
      if !workRemaining {
        SetSuccessSynced(cachedResponseStatus);
      }
      // END CRITICAL SECTION
      if workRemaining {
        outRequest := request;
      } else {
        outRequest := null;
        Finish();
      }
    }

    /**
     * s_s3_default_prepare_request with its continuations, run to completion; `read`
     * is how the body read ends when one is started. Returns the error the
     * preparation's future completes with (Success when it completes with a result).
     */
    method PrepareRequest(request: Request, read: ReadOutcome) returns (error: ErrorCode)
      requires NeedsBodyRead(config, request.numTimesPrepared) ==> |read.bytes| <= config.contentLength
      modifies request
      ensures var r := Prepare(config, old(request.numTimesPrepared), old(request.body), read);
        (error == Success <==> r.Ok?) &&
        (r.Err? ==> error == r.error && request.message == old(request.message)) &&
        (r.Ok? ==> request.message == Some(r.value))
      ensures request.body == PreparedBody(config, old(request.numTimesPrepared), old(request.body), read)
      ensures request.bodyCapacity ==
        if NeedsBodyRead(config, old(request.numTimesPrepared)) then config.contentLength else old(request.bodyCapacity)
      ensures request.numTimesPrepared == old(request.numTimesPrepared)
      ensures request.responseStatus == old(request.responseStatus) && request.hasResponseHeaders == old(request.hasResponseHeaders)
    {
      if config.contentLength > 0 && request.numTimesPrepared == 0 {
        // aws_byte_buf_init with capacity content_length, then the body read fills it
        request.bodyCapacity := config.contentLength;
        request.body := read.bytes;
        error := ReadDoneError(request.bodyCapacity, read);
      } else {
        error := Success;
      }
      // s_s3_default_prepare_request_finish
      var prepared := PrepareFinish(config, request.body, error);
      if prepared.Ok? {
        request.message := Some(prepared.value);
      }
    }

    /** s_s3_meta_request_default_request_finished for the request in flight. */
    method RequestFinished(request: Request, error: ErrorCode, callback: CallbackResult)
      requires Valid() && requestSent && !requestCompleted
      modifies this
      ensures Valid()
      ensures State() ==
        DefaultStrategy.RequestFinished(old(State()), error, request.responseStatus, request.hasResponseHeaders, callback)
    {
      ghost var s := State();
      RequestFinishedKeepsInv(s, error, request.responseStatus, request.hasResponseHeaders, callback);
      var errorCode := error;
      if errorCode == Success && headersCallbackSet && request.hasResponseHeaders {
        headersCallbackCalls := headersCallbackCalls + 1;
        if callback.Raise? {
          errorCode := LastErrorOrUnknown(callback.lastError);
        }
        headersCallbackSet := false;
      }
      // BEGIN CRITICAL SECTION
      cachedResponseStatus := request.responseStatus;
      requestCompleted := true;
      requestErrorCode := errorCode;
      if errorCode == Success {
        StreamResponseBodySynced();
      } else {
        SetFailSynced(errorCode);
      }
      // END CRITICAL SECTION
    }

    // --- what the base engine does meanwhile ---

    /** The base engine finished delivering one body part to the caller. */
    method DeliveryCompleted()
      requires Valid() && numPartsDeliveryCompleted < numPartsDeliverySent
      modifies this
      ensures Valid()
      ensures State() == old(State()).(deliveryCompleted := old(numPartsDeliveryCompleted) + 1)
    {
      numPartsDeliveryCompleted := numPartsDeliveryCompleted + 1;
    }

    /** The base engine records a failure (a cancellation, or an error of the client). */
    method Cancel(error: ErrorCode)
      requires Valid() && error != Success
      modifies this
      ensures Valid()
      ensures State() == DefaultStrategy.SetFailSynced(old(State()), error)
    {
      SetFailSynced(error);
    }
  }

  /**
   * A whole transfer driven through the object's contracts alone: creation, the
   * request handed out once, its body read in full, the response reported, the
   * body delivered, and the end with the response's status.
   */
  method TransferOnce(platform: Platform, config: Config, bytes: seq<bv8>, status: int) returns (m: DefaultMetaRequest)
    requires 0 < config.contentLength == |bytes| <= SizeMax(platform)
    ensures m.finishCalls == 1 && m.requestsCreated == 1
    ensures m.finishResult == Some(Succeeded(status))
  {
    m := new DefaultMetaRequest(platform, config, false);
    var more, request := m.Update(true);
    var again, none := m.Update(true);
    assert again && none == null;
    var error := m.PrepareRequest(request, ReadOutcome(Success, bytes));
    assert error == Success && request.message.Some? && request.message.value.body == bytes;
    request.responseStatus := status;
    m.RequestFinished(request, error, Proceed);
    more, none := m.Update(true);
    assert more;
    m.DeliveryCompleted();
    more, none := m.Update(true);
    assert !more && none == null;
  }
}
