/** Messages as Kafka records: the producer's encoding, the consumer's decoding, and the copy that
    goes to the dead-letter topic. Header maps are iterated in an order of nobody's choosing. */
module KafkaCodec {
  import opened Wrappers
  import opened DeliveryHeaders
  import opened Messages

  const ID_KEY := "message_id"
  const TIMESTAMP_KEY := "timestamp"
  const HEADERS_KEY := "headers"
  const ERROR_HEADER := "x-error"
  const DEFAULT_CONTENT_TYPE := "application/json"
  const DEFAULT_SCHEMA_VERSION := "v1"

  type Entry = (string, string)

  datatype Record = Record(topic: string, key: string, value: string, headers: seq<Entry>)

  /** How instants are written, how they are read, and what a `headers` entry decodes to. */
  datatype Text = Text(format: Time -> string, parse: string -> Option<Time>, decode: string -> Headers)

  predicate Reserved(key: string) {
    key == ID_KEY || key == TIMESTAMP_KEY || key == HEADERS_KEY
  }

  // ----- Encoding -----

  /** The entries are the unreserved headers, each of them, in some order. */
  ghost predicate Lists(entries: seq<Entry>, headers: Headers) {
    forall e: Entry :: e in entries <==> e.0 in headers && !Reserved(e.0) && headers[e.0] == e.1
  }

  ghost predicate Encodes(r: Record, m: Message, topic: string, headers: Headers, text: Text) {
    && r.topic == topic && r.key == m.id && r.value == m.payload
    && |r.headers| >= 2
    && r.headers[0] == (ID_KEY, m.id) && r.headers[1] == (TIMESTAMP_KEY, text.format(m.timestamp))
    && Lists(r.headers[2..], headers)
  }

  /** Publishing adds the trace context to the message's headers and sends the result. */
  method Publish(m: Message, topic: string, trace: Headers, text: Text) returns (r: Record)
    ensures Encodes(r, m, topic, m.headers + trace, text)
  {
    var headers := m.headers + trace;
    var entries: seq<Entry> := [];
    var rest := headers.Keys;
    while rest != {}
      invariant rest <= headers.Keys
      invariant forall e: Entry :: e in entries <==> e.0 in headers.Keys - rest && !Reserved(e.0) && headers[e.0] == e.1
      decreases |rest|
    {
      var key :| key in rest;
      if !Reserved(key) {
        entries := entries + [(key, headers[key])];
      }
      rest := rest - {key};
    }
    r := Record(topic, m.id, m.payload, [(ID_KEY, m.id), (TIMESTAMP_KEY, text.format(m.timestamp))] + entries);
    assert r.headers[2..] == entries;
  }

  // ----- Decoding -----

  function ReadEntry(m: Message, e: Entry, text: Text): Message {
    if e.0 == ID_KEY then m.(id := e.1)
    else if e.0 == TIMESTAMP_KEY then
      if text.parse(e.1).Some? then m.(timestamp := text.parse(e.1).value) else m
    else if e.0 == HEADERS_KEY then m.(headers := m.headers + text.decode(e.1))
    else m.(headers := m.headers[e.0 := e.1])
  }

  function ReadEntries(m: Message, entries: seq<Entry>, text: Text): Message {
    if entries == [] then m
    else ReadEntry(ReadEntries(m, entries[..|entries| - 1], text), entries[|entries| - 1], text)
  }

  function WithDefault(headers: Headers, key: string, value: string): Headers {
    if key in headers then headers else headers[key := value]
  }

  function WithDefaults(headers: Headers): Headers {
    WithDefault(WithDefault(headers, CONTENT_TYPE_HEADER, DEFAULT_CONTENT_TYPE), SCHEMA_VERSION_HEADER, DEFAULT_SCHEMA_VERSION)
  }

  function Parsed(r: Record, now: Time, text: Text): Message {
    var m := ReadEntries(Message("", r.topic, r.value, map[], ZERO_TIME), r.headers, text);
    Message(if m.id == "" then r.key else m.id, m.topic, m.payload, WithDefaults(m.headers),
            if m.timestamp == ZERO_TIME then now else m.timestamp)
  }

  method ParseMessage(r: Record, now: Time, text: Text) returns (m: Message)
    ensures m == Parsed(r, now, text)
  {
    m := Message("", r.topic, r.value, map[], ZERO_TIME);
    var i := 0;
    while i < |r.headers|
      invariant 0 <= i <= |r.headers|
      invariant m == ReadEntries(Message("", r.topic, r.value, map[], ZERO_TIME), r.headers[..i], text)
    {
      var e := r.headers[i];
      assert r.headers[..i + 1][..i] == r.headers[..i];
      if e.0 == ID_KEY {
        m := m.(id := e.1);
      } else if e.0 == TIMESTAMP_KEY {
        var t := text.parse(e.1);
        if t.Some? {
          m := m.(timestamp := t.value);
        }
      } else if e.0 == HEADERS_KEY {
        m := m.(headers := m.headers + text.decode(e.1));
      } else {
        m := m.(headers := m.headers[e.0 := e.1]);
      }
      i := i + 1;
    }
    assert r.headers[..|r.headers|] == r.headers;
    if m.id == "" {
      m := m.(id := r.key);
    }
    if m.timestamp == ZERO_TIME {
      m := m.(timestamp := now);
    }
    if CONTENT_TYPE_HEADER !in m.headers {
      m := m.(headers := m.headers[CONTENT_TYPE_HEADER := DEFAULT_CONTENT_TYPE]);
    }
    if SCHEMA_VERSION_HEADER !in m.headers {
      m := m.(headers := m.headers[SCHEMA_VERSION_HEADER := DEFAULT_SCHEMA_VERSION]);
    }
  }

  // ----- Round trip -----

  function Unreserved(headers: Headers): Headers {
    map k | k in headers && !Reserved(k) :: headers[k]
  }

  lemma {:induction false} PlainEntriesFillTheMap(m: Message, entries: seq<Entry>, headers: Headers, text: Text)
    requires m.headers == map[]
    requires forall e: Entry :: e in entries ==> e.0 in headers && !Reserved(e.0) && headers[e.0] == e.1
    ensures var r := ReadEntries(m, entries, text);
            && r == m.(headers := r.headers)
            && (forall k :: k in r.headers <==> exists e :: e in entries && e.0 == k)
            && (forall k :: k in r.headers ==> k in headers && r.headers[k] == headers[k])
  {
    if entries != [] {
      var earlier, last := entries[..|entries| - 1], entries[|entries| - 1];
      assert entries == earlier + [last];
      PlainEntriesFillTheMap(m, earlier, headers, text);
      assert last in entries;
      assert Readable(last, headers);
    }
  }

  ghost predicate Readable(e: Entry, headers: Headers) {
    e.0 in headers && !Reserved(e.0) && headers[e.0] == e.1
  }

  lemma {:induction false} EntriesConcat(m: Message, first: seq<Entry>, second: seq<Entry>, text: Text)
    ensures ReadEntries(m, first + second, text) == ReadEntries(ReadEntries(m, first, text), second, text)
  {
    if second == [] {
      assert first + second == first;
    } else {
      var earlier := second[..|second| - 1];
      EntriesConcat(m, first, earlier, text);
      assert (first + second)[..|first + second| - 1] == first + earlier;
    }
  }

  lemma PreambleIsRead(m: Message, id: string, stamp: string, text: Text)
    ensures ReadEntries(m, [(ID_KEY, id), (TIMESTAMP_KEY, stamp)], text)
            == ReadEntry(m.(id := id), (TIMESTAMP_KEY, stamp), text)
  {
    var both: seq<Entry> := [(ID_KEY, id), (TIMESTAMP_KEY, stamp)];
    assert both[..1] == [(ID_KEY, id)] && both[..1][..0] == [];
    assert ReadEntries(m, both[..1], text) == m.(id := id);
  }

  /** Whatever order the headers were sent in, reading a published message gives back its id,
      payload and timestamp, and its headers without the reserved keys and with the defaults. */
  lemma CodecRoundTrip(r: Record, m: Message, topic: string, headers: Headers, now: Time, text: Text)
    requires Encodes(r, m, topic, headers, text)
    requires m.timestamp != ZERO_TIME && text.parse(text.format(m.timestamp)) == Some(m.timestamp)
    ensures Parsed(r, now, text) == Message(m.id, topic, m.payload, WithDefaults(Unreserved(headers)), m.timestamp)
  {
    var start := Message("", r.topic, r.value, map[], ZERO_TIME);
    var preamble: seq<Entry> := [(ID_KEY, m.id), (TIMESTAMP_KEY, text.format(m.timestamp))];
    assert r.headers == preamble + r.headers[2..];
    EntriesConcat(start, preamble, r.headers[2..], text);
    PreambleIsRead(start, m.id, text.format(m.timestamp), text);
    var stamped := start.(id := m.id, timestamp := m.timestamp);
    PlainEntriesFillTheMap(stamped, r.headers[2..], headers, text);
    var read := ReadEntries(stamped, r.headers[2..], text);
    hide ReadEntries, WithDefaults;
    forall k
      ensures k in read.headers <==> k in Unreserved(headers)
    {
      if k in Unreserved(headers) {
        assert (k, headers[k]) in r.headers[2..];
      }
    }
    assert read.headers == Unreserved(headers);
  }

  /** What reading leaves: no reserved keys, both defaults present, a timestamp. */
  predicate Normal(m: Message) {
    && (forall k :: k in m.headers ==> !Reserved(k))
    && CONTENT_TYPE_HEADER in m.headers && SCHEMA_VERSION_HEADER in m.headers
    && m.timestamp != ZERO_TIME
  }

  lemma DefaultsAreNotReserved()
    ensures !Reserved(CONTENT_TYPE_HEADER) && !Reserved(SCHEMA_VERSION_HEADER) && !Reserved(ERROR_HEADER)
  {
  }

  lemma ReadingNormalises(r: Record, m: Message, topic: string, headers: Headers, now: Time, text: Text)
    requires Encodes(r, m, topic, headers, text)
    requires m.timestamp != ZERO_TIME && text.parse(text.format(m.timestamp)) == Some(m.timestamp)
    ensures Normal(Parsed(r, now, text))
  {
    CodecRoundTrip(r, m, topic, headers, now, text);
    DefaultsAreNotReserved();
  }

  /** A normal message survives being sent again unchanged. */
  lemma NormalMessageIsUnchanged(r: Record, m: Message, now: Time, text: Text)
    requires Normal(m) && Encodes(r, m, m.topic, m.headers, text)
    requires text.parse(text.format(m.timestamp)) == Some(m.timestamp)
    ensures Parsed(r, now, text) == m
  {
    CodecRoundTrip(r, m, m.topic, m.headers, now, text);
    assert Unreserved(m.headers) == m.headers;
  }

  // ----- What a record carries -----

  /** The header entries of a record as a map. */
  function Fields(entries: seq<Entry>): Headers {
    if entries == [] then map[]
    else Fields(entries[..|entries| - 1])[entries[|entries| - 1].0 := entries[|entries| - 1].1]
  }

  lemma {:induction false} FieldsAreEntries(entries: seq<Entry>)
    ensures forall e: Entry :: e in entries ==> e.0 in Fields(entries)
    ensures forall k :: k in Fields(entries) ==> (k, Fields(entries)[k]) in entries
  {
    if entries != [] {
      var earlier, last := entries[..|entries| - 1], entries[|entries| - 1];
      assert entries == earlier + [last];
      FieldsAreEntries(earlier);
    }
  }

  lemma FieldsOf(entries: seq<Entry>, expected: Headers)
    requires forall e: Entry :: e in entries ==> e.0 in expected && expected[e.0] == e.1
    requires forall k :: k in expected ==> (k, expected[k]) in entries
    ensures Fields(entries) == expected
  {
    FieldsAreEntries(entries);
    hide Fields;
    var fields := Fields(entries);
    assert forall k :: k in fields ==> k in expected && expected[k] == fields[k];
    assert forall k :: k in expected ==> k in fields;
  }

  /** A record that was sent carries id and timestamp, the unreserved headers, and nothing else. */
  lemma EncodedFields(r: Record, m: Message, topic: string, headers: Headers, text: Text)
    requires Encodes(r, m, topic, headers, text)
    ensures Fields(r.headers) == Unreserved(headers)[ID_KEY := m.id][TIMESTAMP_KEY := text.format(m.timestamp)]
  {
    var expected := Unreserved(headers)[ID_KEY := m.id][TIMESTAMP_KEY := text.format(m.timestamp)];
    var first, second, rest := r.headers[0], r.headers[1], r.headers[2..];
    assert r.headers == [first, second] + rest;
    hide Fields, Encodes;
    forall e: Entry | e in r.headers
      ensures e.0 in expected && expected[e.0] == e.1
    {
      assert e == first || e == second || e in rest;
    }
    forall k | k in expected
      ensures (k, expected[k]) in r.headers
    {
      assert k == ID_KEY || k == TIMESTAMP_KEY || (k, expected[k]) in rest;
    }
    FieldsOf(r.headers, expected);
  }

  lemma {:induction false} EntriesRead(m: Message, entries: seq<Entry>, text: Text)
    ensures var read := ReadEntries(m, entries, text);
            && read.topic == m.topic && read.payload == m.payload
            && read.id == (if ID_KEY in Fields(entries) then Fields(entries)[ID_KEY] else m.id)
            && (TIMESTAMP_KEY !in Fields(entries) ==> read.timestamp == m.timestamp)
  {
    if entries != [] {
      EntriesRead(m, entries[..|entries| - 1], text);
    }
  }

  lemma UnreservedGrows(fields: Headers, key: string, value: string)
    ensures Unreserved(fields[key := value]) == if Reserved(key) then Unreserved(fields) else Unreserved(fields)[key := value]
  {
  }

  lemma {:induction false} HeadersAreRead(m: Message, entries: seq<Entry>, text: Text)
    requires HEADERS_KEY !in Fields(entries) && m.headers == map[]
    ensures ReadEntries(m, entries, text).headers == Unreserved(Fields(entries))
  {
    if entries != [] {
      var earlier, last := entries[..|entries| - 1], entries[|entries| - 1];
      HeadersAreRead(m, earlier, text);
      UnreservedGrows(Fields(earlier), last.0, last.1);
      hide Unreserved;
    }
  }

  /** Any record, whoever sent it: topic and payload are its own, the id is that of its headers or else
      its key, a missing timestamp is the time of reading, and the unreserved headers are kept, with
      JSON and the first schema version where nothing else is said. */
  lemma AnyRecordIsRead(r: Record, now: Time, text: Text)
    ensures var m, fields := Parsed(r, now, text), Fields(r.headers);
            && m.topic == r.topic && m.payload == r.value
            && (ID_KEY in fields && fields[ID_KEY] != "" ==> m.id == fields[ID_KEY])
            && (ID_KEY !in fields || fields[ID_KEY] == "" ==> m.id == r.key)
            && (TIMESTAMP_KEY !in fields ==> m.timestamp == now)
            && (HEADERS_KEY !in fields ==> forall k ::
                  if k in fields && !Reserved(k) then k in m.headers && m.headers[k] == fields[k]
                  else if k == "content-type" then k in m.headers && m.headers[k] == "application/json"
                  else if k == "schema-version" then k in m.headers && m.headers[k] == "v1"
                  else k !in m.headers)
  {
    EntriesRead(Message("", r.topic, r.value, map[], ZERO_TIME), r.headers, text);
    if HEADERS_KEY !in Fields(r.headers) {
      HeadersAreRead(Message("", r.topic, r.value, map[], ZERO_TIME), r.headers, text);
    }
    DefaultsAreNotReserved();
  }

  // ----- Dead-letter topic -----

  function DeadLetter(m: Message, topic: string, suffix: string, cause: string): Message {
    m.(topic := topic + suffix, headers := m.headers[ERROR_HEADER := cause])
  }

  /** Copies the headers one by one, adds the cause, and publishes to the suffixed topic. */
  method PublishToDLQ(m: Message, topic: string, suffix: string, cause: string, trace: Headers, text: Text) returns (r: Record)
    ensures Encodes(r, DeadLetter(m, topic, suffix, cause), topic + suffix, DeadLetter(m, topic, suffix, cause).headers + trace, text)
  {
    var headers: Headers := map[];
    var rest := m.headers.Keys;
    while rest != {}
      invariant rest <= m.headers.Keys
      invariant headers == map k | k in m.headers && k !in rest :: m.headers[k]
      decreases |rest|
    {
      var key :| key in rest;
      headers := headers[key := m.headers[key]];
      rest := rest - {key};
    }
    assert headers == m.headers;
    headers := headers[ERROR_HEADER := cause];
    r := Publish(m.(topic := topic + suffix, headers := headers), topic + suffix, trace, text);
  }

  /** A consumer of the dead-letter topic reads the failed message with the cause and the suffixed
      topic, and otherwise only the trace context of its publication. */
  lemma DeadLetterGainsOnlyTheCause(r: Record, m: Message, suffix: string, cause: string, trace: Headers, now: Time, text: Text)
    requires Normal(m) && (forall k :: k in trace ==> !Reserved(k))
    requires Encodes(r, DeadLetter(m, m.topic, suffix, cause), m.topic + suffix,
                     DeadLetter(m, m.topic, suffix, cause).headers + trace, text)
    requires text.parse(text.format(m.timestamp)) == Some(m.timestamp)
    ensures Parsed(r, now, text)
            == m.(topic := m.topic + suffix, headers := m.headers[ERROR_HEADER := cause] + trace)
  {
    var dead := DeadLetter(m, m.topic, suffix, cause);
    CodecRoundTrip(r, dead, m.topic + suffix, dead.headers + trace, now, text);
    DefaultsAreNotReserved();
    assert Unreserved(dead.headers + trace) == dead.headers + trace;
  }
}
