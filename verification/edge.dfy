/**
 * The Edge extension: the readiness gate for incoming events and the
 * handler that turns an Experience Edge request event into a stored entity
 * on the hit queue.
 */
module EdgeExtension {
  import opened Common
  import opened EdgeData

  /** `Constants.EventType.EDGE` */
  const EdgeEventType: string := "com.adobe.eventType.edge"
  /** `EventSource.requestContent` */
  const RequestContentSource: string := "com.adobe.eventSource.requestContent"

  /** Status of a shared state published by another extension. */
  datatype SharedStateStatus = Set | Pending | NoStatus

  /** An Experience Edge request content event, the only kind the gate inspects. */
  predicate IsEdgeRequest(event: Event) {
    event.eventType == EdgeEventType && event.source == RequestContentSource
  }

  /**
   * `readyForEvent`: an Edge request may be processed only once both the
   * configuration and the identity shared states exist and are `.set`;
   * every other event is always ready. The two shared-state lookups are
   * given as their results, `None` standing for a missing shared state.
   */
  function ReadyForEvent(event: Event, configuration: Option<SharedStateStatus>, identity: Option<SharedStateStatus>): (ready: bool)
    ensures !IsEdgeRequest(event) ==> ready
    ensures IsEdgeRequest(event) ==> (ready <==> configuration == Some(Set) && identity == Some(Set))
  {
    if IsEdgeRequest(event) then
      configuration == Some(Set) && identity == Some(Set)
    else
      true
  }

  /**
   * The entity `handleExperienceEventRequest` stores for an event, if any:
   * none for an event without data or one the encoder rejects; otherwise
   * one keyed by the event's id and timestamp carrying the encoded event.
   * `encode` stands for the JSON encoder, which may fail.
   */
  function EntityFor(event: Event, encode: Event -> Option<Bytes>): (entity: Option<DataEntity>)
    ensures entity.None? <==> event.data.None? || encode(event).None?
    ensures entity.Some? ==>
      entity.value.uniqueIdentifier == event.id &&
      entity.value.timestamp == event.timestamp &&
      entity.value.data == encode(event)
  {
    if event.data.None? then None
    else
      match encode(event)
      case None => None
      case Some(bytes) => Some(DataEntity(event.id, event.timestamp, Some(bytes)))
  }

  /** A gate that is closed for pending or missing shared states. */
  lemma NotReadyWithoutBothStates(event: Event, configuration: Option<SharedStateStatus>, identity: Option<SharedStateStatus>)
    requires IsEdgeRequest(event)
    requires configuration != Some(Set) || identity != Some(Set)
    ensures !ReadyForEvent(event, configuration, identity)
  {
  }

  class Edge {
    /**
     * The persistent hit queue's contents, oldest first; `None` when the
     * data queue could not be created, in which case nothing is ever queued.
     */
    var hitQueue: Option<seq<DataEntity>>

    /**
     * `setupHitQueue`: `dataQueue` is what the data-queue service returned,
     * `None` for failure, or the entities it already holds.
     */
    constructor (dataQueue: Option<seq<DataEntity>>)
      ensures hitQueue == dataQueue
    {
      hitQueue := dataQueue;
    }

    /**
     * `handleExperienceEventRequest`: appends at most one entity, the one
     * `EntityFor` describes, at the end of an existing queue; a missing
     * queue stays missing.
     */
    method HandleExperienceEventRequest(event: Event, encode: Event -> Option<Bytes>)
      modifies this
      ensures old(hitQueue).None? ==> hitQueue.None?
      ensures old(hitQueue).Some? && EntityFor(event, encode).None? ==> hitQueue == old(hitQueue)
      ensures old(hitQueue).Some? && EntityFor(event, encode).Some? ==>
        hitQueue == Some(old(hitQueue).value + [EntityFor(event, encode).value])
    {
      if event.data.None? {
        return;
      }
      var eventData := encode(event);
      if eventData.None? {
        return;
      }
      var entity := DataEntity(event.id, event.timestamp, eventData);
      if hitQueue.Some? {
        hitQueue := Some(hitQueue.value + [entity]);
      }
    }
  }
}
