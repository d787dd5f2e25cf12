/**
 * `EdgeHitProcessor` and its callback adapter, as the trace of actions they
 * emit: the network request, the calls forwarded to the response callback,
 * and the `completion(Bool)` verdicts handed back to the hit queue
 * (`true`: the hit is done, `false`: retry it later).
 */
module EdgeHitProcessing {
  import opened Common
  import opened EdgeData

  /** Seconds the hit queue waits before retrying a hit; the same for every entity. */
  const RetryIntervalSeconds: nat := 30

  /** What the adapter forwards to the network response callback. */
  datatype Forwarded = Response(jsonResponse: string) | Error(jsonError: string) | Completed

  /** One observable action of the processor. */
  datatype Action =
    | DoRequest(url: string, requestBody: string, requestHeaders: map<string, string>, callbackRequestId: string, retryTimes: nat)
    | Forward(requestId: string, forwarded: Forwarded)
    | Complete(success: bool)

  /** A call the network service makes on the response callback of a request. */
  datatype Callback = OnResponse(jsonResponse: string) | OnError(jsonError: string) | OnComplete

  /** The completion verdicts in a trace, in order. */
  function Completions(trace: seq<Action>): seq<bool>
  {
    if trace == [] then []
    else (if trace[0].Complete? then [trace[0].success] else []) + Completions(trace[1..])
  }

  /** The number of network requests in a trace. */
  function Requests(trace: seq<Action>): nat
  {
    if trace == [] then 0
    else (if trace[0].DoRequest? then 1 else 0) + Requests(trace[1..])
  }

  /** The calls forwarded in a trace, in order. */
  function ForwardedCalls(trace: seq<Action>): seq<Forwarded>
  {
    if trace == [] then []
    else (if trace[0].Forward? then [trace[0].forwarded] else []) + ForwardedCalls(trace[1..])
  }

  /** Every call forwarded in `trace` is forwarded to the callback of request `requestId`. */
  predicate ForwardsTo(trace: seq<Action>, requestId: string)
  {
    forall i | 0 <= i < |trace| :: trace[i].Forward? ==> trace[i].requestId == requestId
  }

  /** Every completion in `trace` directly follows a forwarded call. */
  predicate ForwardsBeforeCompleting(trace: seq<Action>)
  {
    forall i | 0 <= i < |trace| :: trace[i].Complete? ==> 0 < i && trace[i - 1].Forward?
  }

  /**
   * The retry contract, stated independently of the adapter: a response
   * finishes the hit, an error asks for a retry, completion decides nothing.
   */
  function Verdict(callback: Callback): seq<bool>
  {
    match callback
    case OnResponse(_) => [true]
    case OnError(_) => [false]
    case OnComplete => []
  }

  /** The call to forward for a callback: the same call, with the same payload. */
  function ForwardOf(callback: Callback): Forwarded
  {
    match callback
    case OnResponse(json) => Response(json)
    case OnError(json) => Error(json)
    case OnComplete => Completed
  }

  /** The calls to forward for a sequence of callbacks, in order. */
  function ForwardsOf(callbacks: seq<Callback>): seq<Forwarded>
  {
    if callbacks == [] then [] else [ForwardOf(callbacks[0])] + ForwardsOf(callbacks[1..])
  }

  /** The verdicts a sequence of callbacks calls for, in order. */
  function Verdicts(callbacks: seq<Callback>): seq<bool>
  {
    if callbacks == [] then [] else Verdict(callbacks[0]) + Verdicts(callbacks[1..])
  }

  /**
   * The hit stored in an entity: `None` when the entity has no data or the
   * decoder (the JSON decoder, which may fail) rejects it.
   */
  function DecodeEntity(entity: DataEntity, decode: Bytes -> Option<EdgeHit>): Option<EdgeHit>
  {
    if entity.data.None? then None else decode(entity.data.value)
  }

  /**
   * `processHit`: an undecodable entity is completed with `true` and never
   * sent; a decoded hit is sent exactly once, with its own url, body and
   * headers, the configured retry count, and a response callback keyed by
   * the entity's identifier, and nothing is completed yet.
   */
  function ProcessHit(entity: DataEntity, decode: Bytes -> Option<EdgeHit>, maxRetries: nat): (trace: seq<Action>)
    ensures DecodeEntity(entity, decode).None? ==>
      Requests(trace) == 0 && Completions(trace) == [true] && |trace| == 1
    ensures DecodeEntity(entity, decode).Some? ==>
      Requests(trace) == 1 && Completions(trace) == [] && |trace| == 1 &&
      var hit := DecodeEntity(entity, decode).value;
      trace[0] == DoRequest(hit.url, hit.request, hit.headers, entity.uniqueIdentifier, maxRetries)
  {
    match DecodeEntity(entity, decode)
    case None => [Complete(true)]
    case Some(hit) => [DoRequest(hit.url, hit.request, hit.headers, entity.uniqueIdentifier, maxRetries)]
  }

  /**
   * `EdgeHitProcessorCallback`: each callback is first forwarded, once and
   * with its payload, to the network response callback of `requestId`; then
   * a response completes with `true`, an error with `false`, and completion
   * with nothing.
   */
  function OnCallback(requestId: string, callback: Callback): (trace: seq<Action>)
    ensures |trace| == 1 + |Verdict(callback)|
    ensures trace[0] == Forward(requestId, ForwardOf(callback))
    ensures ForwardedCalls(trace) == [ForwardOf(callback)] && ForwardsTo(trace, requestId)
    ensures Completions(trace) == Verdict(callback)
    ensures Requests(trace) == 0
    ensures ForwardsBeforeCompleting(trace)
  {
    match callback
    case OnResponse(json) =>
      var verdict := [Complete(true)];
      assert verdict[1..] == [];
      assert Completions(verdict) == [true] && Requests(verdict) == 0 && ForwardedCalls(verdict) == [];
      var trace := [Forward(requestId, Response(json))] + verdict;
      assert trace[1..] == verdict;
      trace
    case OnError(json) =>
      var verdict := [Complete(false)];
      assert verdict[1..] == [];
      assert Completions(verdict) == [false] && Requests(verdict) == 0 && ForwardedCalls(verdict) == [];
      var trace := [Forward(requestId, Error(json))] + verdict;
      assert trace[1..] == verdict;
      trace
    case OnComplete =>
      var trace := [Forward(requestId, Completed)];
      assert trace[1..] == [];
      trace
  }

  /** The actions of a sequence of callbacks on the same request. */
  function OnCallbacks(requestId: string, callbacks: seq<Callback>): seq<Action>
  {
    if callbacks == [] then [] else OnCallback(requestId, callbacks[0]) + OnCallbacks(requestId, callbacks[1..])
  }

  /**
   * The whole life of one attempt at a hit: `processHit`, then, if a
   * request was issued, the callbacks the network service makes on it.
   */
  function Attempt(entity: DataEntity, decode: Bytes -> Option<EdgeHit>, maxRetries: nat, callbacks: seq<Callback>): seq<Action>
  {
    ProcessHit(entity, decode, maxRetries) +
    (if DecodeEntity(entity, decode).Some? then OnCallbacks(entity.uniqueIdentifier, callbacks) else [])
  }

  lemma {:induction false} CompletionsAppend(a: seq<Action>, b: seq<Action>)
    ensures Completions(a + b) == Completions(a) + Completions(b)
  {
    if a != [] {
      assert (a + b)[1..] == a[1..] + b;
      CompletionsAppend(a[1..], b);
    } else {
      assert a + b == b;
    }
  }

  lemma {:induction false} ForwardedCallsAppend(a: seq<Action>, b: seq<Action>)
    ensures ForwardedCalls(a + b) == ForwardedCalls(a) + ForwardedCalls(b)
  {
    if a != [] {
      assert (a + b)[1..] == a[1..] + b;
      ForwardedCallsAppend(a[1..], b);
    } else {
      assert a + b == b;
    }
  }

  lemma {:induction false} RequestsAppend(a: seq<Action>, b: seq<Action>)
    ensures Requests(a + b) == Requests(a) + Requests(b)
  {
    if a != [] {
      assert (a + b)[1..] == a[1..] + b;
      RequestsAppend(a[1..], b);
    } else {
      assert a + b == b;
    }
  }

  /**
   * The adapter honours the retry contract over any sequence of callbacks:
   * the verdicts it hands back are exactly those `Verdicts` calls for, it
   * forwards exactly the callbacks it receives, in order and with their
   * payloads, only to `requestId`, each before completing, and it never
   * issues a request.
   */
  lemma {:induction false} OnCallbacksContract(requestId: string, callbacks: seq<Callback>)
    ensures ForwardedCalls(OnCallbacks(requestId, callbacks)) == ForwardsOf(callbacks)
    ensures Completions(OnCallbacks(requestId, callbacks)) == Verdicts(callbacks)
    ensures Requests(OnCallbacks(requestId, callbacks)) == 0
    ensures ForwardsTo(OnCallbacks(requestId, callbacks), requestId)
    ensures ForwardsBeforeCompleting(OnCallbacks(requestId, callbacks))
  {
    if callbacks != [] {
      var head := OnCallback(requestId, callbacks[0]);
      var tail := OnCallbacks(requestId, callbacks[1..]);
      OnCallbacksContract(requestId, callbacks[1..]);
      CompletionsAppend(head, tail);
      RequestsAppend(head, tail);
      ForwardedCallsAppend(head, tail);
      assert OnCallbacks(requestId, callbacks) == head + tail;
      forall i | 0 <= i < |head + tail| && (head + tail)[i].Complete?
        ensures 0 < i && (head + tail)[i - 1].Forward?
      {
        if i >= |head| {
          assert (head + tail)[i] == tail[i - |head|];
          if i - |head| > 0 {
            assert (head + tail)[i - 1] == tail[i - 1 - |head|];
          } else {
            assert false;
          }
        }
      }
    }
  }

  /** A hit that cannot be decoded is dropped: completed once with `true`, never sent. */
  lemma UndecodableIsDropped(entity: DataEntity, decode: Bytes -> Option<EdgeHit>, maxRetries: nat, callbacks: seq<Callback>)
    requires DecodeEntity(entity, decode).None?
    ensures Attempt(entity, decode, maxRetries, callbacks) == [Complete(true)]
  {
  }

  /**
   * A decoded hit is sent exactly once, first, and its verdicts are exactly
   * those its callbacks call for, in order: `true` for every response,
   * `false` for every error, and none for `onComplete`.
   * The callbacks are forwarded as received, in order, all to the callback
   * keyed by the entity's identifier.
   */
  lemma DecodedIsSentOnce(entity: DataEntity, decode: Bytes -> Option<EdgeHit>, maxRetries: nat, callbacks: seq<Callback>)
    requires DecodeEntity(entity, decode).Some?
    ensures var trace := Attempt(entity, decode, maxRetries, callbacks);
      Requests(trace) == 1 && trace[0].DoRequest? &&
      Completions(trace) == Verdicts(callbacks) &&
      ForwardedCalls(trace) == ForwardsOf(callbacks) &&
      ForwardsTo(trace, entity.uniqueIdentifier) &&
      ForwardsBeforeCompleting(trace)
  {
    var first := ProcessHit(entity, decode, maxRetries);
    var rest := OnCallbacks(entity.uniqueIdentifier, callbacks);
    OnCallbacksContract(entity.uniqueIdentifier, callbacks);
    CompletionsAppend(first, rest);
    RequestsAppend(first, rest);
    ForwardedCallsAppend(first, rest);
    assert ForwardedCalls(first) == [] by {
      assert first[1..] == [];
    }
    assert Attempt(entity, decode, maxRetries, callbacks) == first + rest;
    forall i | 0 <= i < |first + rest| && (first + rest)[i].Complete?
      ensures 0 < i && (first + rest)[i - 1].Forward?
    {
      assert i > 0;
      assert (first + rest)[i] == rest[i - 1];
      if i > 1 {
        assert (first + rest)[i - 1] == rest[i - 2];
      } else {
        assert false;
      }
    }
  }

  /** Only `onComplete` calls leave a sent hit without any verdict. */
  lemma {:induction false} NoVerdictOnlyOnComplete(callbacks: seq<Callback>)
    ensures Verdicts(callbacks) == [] <==> forall i | 0 <= i < |callbacks| :: callbacks[i] == OnComplete
  {
    if callbacks != [] {
      NoVerdictOnlyOnComplete(callbacks[1..]);
      assert forall i | 1 <= i < |callbacks| :: callbacks[i] == callbacks[1..][i - 1];
    }
  }
}
