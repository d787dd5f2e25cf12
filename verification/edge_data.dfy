/** The records that travel through the Edge pipeline. */
module EdgeData {
  import opened Common

  /** Event payload; its XDM schema is not part of this model. */
  type EventData = map<string, string>

  /** A host event: its id (`uuidString`), creation time, type, source and optional data. */
  datatype Event = Event(id: string, timestamp: int, eventType: string, source: string, data: Option<EventData>)

  /** The hit-queue storage envelope (`DataEntity`): an id, a timestamp and optional raw bytes. */
  datatype DataEntity = DataEntity(uniqueIdentifier: string, timestamp: int, data: Option<Bytes>)

  /**
   * A decoded hit: the four fields of the `EdgeHit` protocol plus the
   * `url` and `request` body the processor sends.
   */
  datatype EdgeHit = EdgeHit(
    configId: string,
    requestId: string,
    headers: map<string, string>,
    listOfEvents: Option<seq<Event>>,
    url: string,
    request: string)
}
