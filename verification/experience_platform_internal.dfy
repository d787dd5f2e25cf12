/**
 * The legacy Experience Platform extension's event queue: events with data
 * are appended and the queue is processed at once. Each round of the
 * processing loop looks at the MOST RECENT event (the last one), asks the
 * host for the configuration shared state of that event, and then halts
 * (configuration unavailable), returns after logging that the event was
 * removed (no usable config id), or goes round again without any change
 * (valid config id: sending is not implemented, so the loop makes no
 * progress). The removal is not carried out: `_ = eventQueue.dropLast()`
 * computes a copy without the last event and discards it, so the queue is
 * never shortened. `IntendedRound` and `IntendedRun` model the removal the
 * code evidently meant.
 */
module ExperiencePlatformInternal {
  import opened Common

  /** Configuration entry that holds the Experience Platform config id. */
  const ConfigIdKey: string := "experiencePlatform.configId"

  type EventData = map<string, string>

  /** A host event: its identifier and optional data. */
  datatype ExtensionEvent = ExtensionEvent(eventUniqueIdentifier: string, eventData: Option<EventData>)

  /** A configuration entry's value; only a string can serve as a config id. */
  datatype ConfigValue = Text(text: string) | NotText

  /**
   * The outcome of asking the host for the configuration shared state of an
   * event: the lookup threw, the state is pending (`nil`), or it is available.
   */
  datatype ConfigLookup = Threw | Pending | Available(state: map<string, ConfigValue>)

  /** The config id of a configuration state, if it has one that is a string. */
  function ConfigId(state: map<string, ConfigValue>): Option<string>
  {
    if ConfigIdKey in state && state[ConfigIdKey].Text? then Some(state[ConfigIdKey].text) else None
  }

  /** A config id that is present and not empty. */
  predicate HasValidConfigId(state: map<string, ConfigValue>)
  {
    ConfigId(state).Some? && ConfigId(state).value != ""
  }

  /** The configuration of `event` is available and holds a usable config id. */
  predicate ConfigUsable(lookup: ExtensionEvent -> ConfigLookup, event: ExtensionEvent)
  {
    lookup(event).Available? && HasValidConfigId(lookup(event).state)
  }

  function Last(queue: seq<ExtensionEvent>): ExtensionEvent
    requires queue != []
  {
    queue[|queue| - 1]
  }

  /** What one round of the loop leads to: return with a queue, or go round again with one. */
  datatype Step = Return(queue: seq<ExtensionEvent>) | Again(queue: seq<ExtensionEvent>)

  /**
   * How `processEventQueue` ends when it may run at most `fuel` rounds:
   * it returns with a queue, or it is still looping when the rounds run out.
   */
  datatype Outcome = Finished(queue: seq<ExtensionEvent>) | Looping(queue: seq<ExtensionEvent>)

  /**
   * One round of the `while !eventQueue.isEmpty` loop, as written. Only the
   * last event is consulted and the queue is never changed; the loop goes
   * round again exactly when that event's config id is usable, and returns
   * in every other case.
   */
  function Round(queue: seq<ExtensionEvent>, lookup: ExtensionEvent -> ConfigLookup): (step: Step)
    requires queue != []
    ensures step.queue == queue
    ensures step.Again? <==> ConfigUsable(lookup, Last(queue))
  {
    match lookup(Last(queue))
    case Threw => Return(queue)
    case Pending => Return(queue)
    case Available(state) =>
      // the shortened copy `dropLast()` returns is discarded
      if ConfigId(state).None? || ConfigId(state).value == "" then Return(queue)
      else Again(queue)
  }

  /**
   * `processEventQueue` as written, bounded by `fuel` rounds. The queue is
   * never changed, and processing returns exactly when the queue is empty
   * or, given a round, the newest event's config id is not usable.
   */
  function Run(queue: seq<ExtensionEvent>, lookup: ExtensionEvent -> ConfigLookup, fuel: nat): (outcome: Outcome)
    ensures outcome.queue == queue
    ensures outcome.Finished? <==> queue == [] || (0 < fuel && !ConfigUsable(lookup, Last(queue)))
    decreases fuel
  {
    if queue == [] then Finished(queue)
    else if fuel == 0 then Looping(queue)
    else
      match Round(queue, lookup)
      case Return(q) => Finished(q)
      case Again(q) => Run(q, lookup, fuel - 1)
  }

  /** Processing an empty queue returns at once and changes nothing. */
  lemma EmptyQueueUnchanged(lookup: ExtensionEvent -> ConfigLookup, fuel: nat)
    ensures Run([], lookup, fuel) == Finished([])
  {
  }

  /** An unavailable configuration halts processing with every event kept. */
  lemma UnavailableConfigHalts(queue: seq<ExtensionEvent>, lookup: ExtensionEvent -> ConfigLookup, fuel: nat)
    requires queue != [] && 0 < fuel
    requires lookup(Last(queue)).Threw? || lookup(Last(queue)).Pending?
    ensures Run(queue, lookup, fuel) == Finished(queue)
  {
  }

  /**
   * A missing or empty config id makes processing return, and, although
   * the event is logged as removed, every event is kept.
   */
  lemma InvalidConfigIdKeepsQueue(queue: seq<ExtensionEvent>, lookup: ExtensionEvent -> ConfigLookup, fuel: nat)
    requires queue != [] && 0 < fuel
    requires lookup(Last(queue)).Available? && !HasValidConfigId(lookup(Last(queue)).state)
    ensures Run(queue, lookup, fuel) == Finished(queue)
  {
  }

  /**
   * With a valid config id the loop never ends: however many rounds it is
   * given, it is still looping over the unchanged queue.
   */
  lemma ValidConfigIdLoopsForever(queue: seq<ExtensionEvent>, lookup: ExtensionEvent -> ConfigLookup, fuel: nat)
    requires queue != [] && ConfigUsable(lookup, Last(queue))
    ensures Run(queue, lookup, fuel) == Looping(queue)
  {
  }

  /**
   * Only the configuration of the most recent event matters: two lookups
   * that agree on it give the same outcome. Older events are never examined.
   */
  lemma OnlyLastEventConsulted(queue: seq<ExtensionEvent>, lookup1: ExtensionEvent -> ConfigLookup, lookup2: ExtensionEvent -> ConfigLookup, fuel: nat)
    requires queue != [] ==> lookup1(Last(queue)) == lookup2(Last(queue))
    ensures Run(queue, lookup1, fuel) == Run(queue, lookup2, fuel)
  {
  }

  /**
   * The round the code evidently intends: as `Round`, except that a
   * missing or empty config id removes the last event. The queue stays as
   * it is or loses exactly its last event, and loses it exactly then.
   */
  function IntendedRound(queue: seq<ExtensionEvent>, lookup: ExtensionEvent -> ConfigLookup): (step: Step)
    requires queue != []
    ensures step.queue == queue || step.queue == queue[..|queue| - 1]
    ensures step.queue == queue[..|queue| - 1] <==>
      lookup(Last(queue)).Available? && !HasValidConfigId(lookup(Last(queue)).state)
    ensures step.Again? <==> ConfigUsable(lookup, Last(queue))
    ensures step.Again? ==> step.queue == queue
  {
    match lookup(Last(queue))
    case Threw => Return(queue)
    case Pending => Return(queue)
    case Available(state) =>
      if ConfigId(state).None? || ConfigId(state).value == "" then Return(queue[..|queue| - 1])
      else Again(queue)
  }

  /**
   * `processEventQueue` as evidently intended, bounded by `fuel` rounds. It
   * never adds or reorders events: the result is a prefix of the input at
   * most one event shorter, and a queue still being looped over is unchanged.
   */
  function IntendedRun(queue: seq<ExtensionEvent>, lookup: ExtensionEvent -> ConfigLookup, fuel: nat): (outcome: Outcome)
    ensures outcome.queue <= queue
    ensures |queue| <= |outcome.queue| + 1
    ensures outcome.Looping? ==> outcome.queue == queue
    decreases fuel
  {
    if queue == [] then Finished(queue)
    else if fuel == 0 then Looping(queue)
    else
      match IntendedRound(queue, lookup)
      case Return(q) => Finished(q)
      case Again(q) => IntendedRun(q, lookup, fuel - 1)
  }

  /**
   * The intended processing differs from the code as written only where
   * the code logs a removal it does not perform.
   */
  lemma {:induction false} IntendedRunDiffersOnlyByRemoval(queue: seq<ExtensionEvent>, lookup: ExtensionEvent -> ConfigLookup, fuel: nat)
    ensures queue != [] && 0 < fuel && lookup(Last(queue)).Available? && !HasValidConfigId(lookup(Last(queue)).state)
      ==> IntendedRun(queue, lookup, fuel) == Finished(queue[..|queue| - 1])
    ensures !(queue != [] && 0 < fuel && lookup(Last(queue)).Available? && !HasValidConfigId(lookup(Last(queue)).state))
      ==> IntendedRun(queue, lookup, fuel) == Run(queue, lookup, fuel)
    decreases fuel
  {
    if queue != [] && 0 < fuel && ConfigUsable(lookup, Last(queue)) {
      IntendedRunDiffersOnlyByRemoval(queue, lookup, fuel - 1);
    }
  }

  /**
   * The discrepancy on one event: with its configuration available but
   * without a config id, the code keeps the event the intended processing removes.
   */
  lemma DropLastIsDiscarded(event: ExtensionEvent, lookup: ExtensionEvent -> ConfigLookup)
    requires lookup(event) == Available(map[])
    ensures Run([event], lookup, 1) == Finished([event])
    ensures IntendedRun([event], lookup, 1) == Finished([])
  {
  }

  /**
   * Intended processing: a missing or empty config id drops exactly one
   * event, the most recently added one, and processing returns.
   */
  lemma InvalidConfigIdDropsLast(queue: seq<ExtensionEvent>, lookup: ExtensionEvent -> ConfigLookup, fuel: nat)
    requires queue != [] && 0 < fuel
    requires lookup(Last(queue)).Available? && !HasValidConfigId(lookup(Last(queue)).state)
    ensures IntendedRun(queue, lookup, fuel) == Finished(queue[..|queue| - 1])
  {
  }

  /**
   * Intended processing: adding an event whose configuration has no usable
   * config id drops that very event and leaves every earlier one in place,
   * so the queue is served newest first, not in the order of arrival.
   */
  lemma AddedEventIsTheOneDropped(queue: seq<ExtensionEvent>, event: ExtensionEvent, lookup: ExtensionEvent -> ConfigLookup, fuel: nat)
    requires 0 < fuel
    requires lookup(event).Available? && !HasValidConfigId(lookup(event).state)
    ensures IntendedRun(queue + [event], lookup, fuel) == Finished(queue)
  {
  }

  class ExperiencePlatform {
    /** Events waiting to be processed, oldest first. */
    var eventQueue: seq<ExtensionEvent>

    constructor ()
      ensures eventQueue == []
    {
      eventQueue := [];
    }

    /**
     * `processEventQueue`, allowed at most `fuel` rounds of its loop;
     * `finished` is false when the rounds ran out with the loop still going.
     * The configuration lookup of the host is the parameter `lookup`. The
     * queue is left as it was.
     */
    method ProcessEventQueue(lookup: ExtensionEvent -> ConfigLookup, fuel: nat) returns (finished: bool)
      modifies this
      ensures eventQueue == old(eventQueue)
      ensures Run(old(eventQueue), lookup, fuel) == (if finished then Finished(eventQueue) else Looping(eventQueue))
    {
      if eventQueue == [] {
        return true;
      }
      var rounds := fuel;
      while eventQueue != []
        invariant eventQueue == old(eventQueue)
        invariant Run(eventQueue, lookup, rounds) == Run(old(eventQueue), lookup, fuel)
        decreases rounds
      {
        if rounds == 0 {
          return false;
        }
        var event := eventQueue[|eventQueue| - 1];
        match lookup(event) {
          case Threw =>
            return true;
          case Pending =>
            return true;
          case Available(state) =>
            var configId := ConfigId(state);
            if configId.None? || configId.value == "" {
              // `dropLast()` only returns a shortened copy, which is discarded
              return true;
            }
        }
        rounds := rounds - 1;
      }
      return true;
    }

    /**
     * `processAddEvent`: an event without data is ignored and nothing is
     * processed; any other event is appended at the end of the queue, which
     * is then processed, and stays there.
     */
    method ProcessAddEvent(event: ExtensionEvent, lookup: ExtensionEvent -> ConfigLookup, fuel: nat) returns (finished: bool)
      modifies this
      ensures event.eventData.None? ==> eventQueue == old(eventQueue) && finished
      ensures event.eventData.Some? ==> eventQueue == old(eventQueue) + [event]
      ensures event.eventData.Some? ==> finished == Run(old(eventQueue) + [event], lookup, fuel).Finished?
    {
      if event.eventData.None? {
        return true;
      }
      eventQueue := eventQueue + [event];
      finished := ProcessEventQueue(lookup, fuel);
    }
  }
}
