/** The broker-independent message. */
module Messages {
  import opened DeliveryHeaders

  type Time = int

  /** The instant that stands for "not set". */
  const ZERO_TIME: Time := 0

  const CONTENT_TYPE_HEADER := "content-type"
  const SCHEMA_VERSION_HEADER := "schema-version"

  datatype Message = Message(id: string, topic: string, payload: string, headers: Headers, timestamp: Time)
}
