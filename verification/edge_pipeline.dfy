/**
 * How an event handed to the Edge extension travels to the hit processor:
 * the entity queued for it is keyed by the event id, and that id is what
 * the response callback is keyed by when the entity is processed.
 */
module EdgePipeline {
  import opened Common
  import opened EdgeData
  import opened EdgeExtension
  import opened EdgeHitProcessing

  /**
   * For the entity queued for `event`: if the stored bytes decode to a hit,
   * the hit is sent once and every forwarded response, error or completion
   * is keyed by the event's id, whatever request id the hit carries itself;
   * if they do not decode, the entity is dropped without being sent.
   */
  lemma QueuedEventCorrelation(event: Event, encode: Event -> Option<Bytes>, decode: Bytes -> Option<EdgeHit>,
                               maxRetries: nat, callbacks: seq<Callback>)
    requires EntityFor(event, encode).Some?
    ensures var entity := EntityFor(event, encode).value;
      var trace := Attempt(entity, decode, maxRetries, callbacks);
      (decode(encode(event).value).Some? ==>
        Requests(trace) == 1 && ForwardsTo(trace, event.id) &&
        ForwardedCalls(trace) == ForwardsOf(callbacks) && Completions(trace) == Verdicts(callbacks)) &&
      (decode(encode(event).value).None? ==> trace == [Complete(true)])
  {
    var entity := EntityFor(event, encode).value;
    assert DecodeEntity(entity, decode) == decode(encode(event).value);
    if DecodeEntity(entity, decode).Some? {
      DecodedIsSentOnce(entity, decode, maxRetries, callbacks);
    } else {
      UndecodableIsDropped(entity, decode, maxRetries, callbacks);
    }
  }
}
