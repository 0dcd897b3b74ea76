/** The data frame: a topic string and an opaque payload, both required. */
module MessageCodec {
  import opened Prelude
  import opened Utf8
  import opened Varint
  import opened Wire
  import opened WireRoundTrip
  import opened WireSerializer

  const DATA_MODEL := "realtime_message"

  const DATA_FIELDS: seq<Field> := [Field("topic", TString, Required), Field("payload", TBytes, Required)]

  const DATA_SCHEMA: Schema := Schema(map[DATA_MODEL := DATA_FIELDS], map[])

  function DataMessage(topic: Text, payload: seq<Byte>): Message {
    map["topic" := Str(topic), "payload" := Blob(payload)]
  }

  /** The bytes of a data frame. */
  function FrameBytes(topic: Text, payload: seq<Byte>): seq<Byte> {
    LenField(1, Encode(topic)) + LenField(2, payload)
  }

  lemma DataKinded(topic: Text, payload: seq<Byte>)
    ensures WellFormed(DATA_SCHEMA) && AllDistinctKeys(DATA_SCHEMA) && Extends(DATA_SCHEMA, DATA_SCHEMA)
    ensures Kinded(DATA_SCHEMA, DATA_MODEL, DataMessage(topic, payload))
  {
    var m := DataMessage(topic, payload);
    assert WellFormedType(DATA_SCHEMA, DATA_MODEL);
    assert FieldKinded(DATA_SCHEMA, DATA_FIELDS[0], m["topic"]);
    assert FieldKinded(DATA_SCHEMA, DATA_FIELDS[1], m["payload"]);
  }

  lemma WritesFrameBytes(topic: Text, payload: seq<Byte>)
    requires |Encode(topic)| <= MAX_SAFE && |payload| <= MAX_SAFE
    requires WellFormed(DATA_SCHEMA) && Kinded(DATA_SCHEMA, DATA_MODEL, DataMessage(topic, payload))
    ensures WriteMessage(DATA_SCHEMA, DATA_MODEL, DataMessage(topic, payload)) == Ok(FrameBytes(topic, payload))
  {
    var s, t, m := DATA_SCHEMA, DATA_MODEL, DataMessage(topic, payload);
    assert WriteFields(s, t, m, 2) == Ok([]);
    assert WriteField(s, t, m, 1) == Ok(LenField(2, payload));
    assert LenField(2, payload) + [] == LenField(2, payload);
    assert WriteFields(s, t, m, 1) == Ok(LenField(2, payload));
    assert WriteField(s, t, m, 0) == Ok(LenField(1, Encode(topic)));
  }

  lemma ReadsFrameBytes(topic: Text, payload: seq<Byte>)
    requires |Encode(topic)| <= MAX_SAFE && |payload| <= MAX_SAFE
    ensures ReadMessage(DATA_SCHEMA, DATA_MODEL, FrameBytes(topic, payload))
         == Ok(DataMessage(StripBom(topic), payload))
  {
    var s, t, m := DATA_SCHEMA, DATA_MODEL, DataMessage(topic, payload);
    DataKinded(topic, payload);
    WritesFrameBytes(topic, payload);
    RoundTrip(s, s, t, m);
    hide FrameBytes, ReadMessage, WriteMessage, Kinded;
    NormalFrame(topic, payload);
  }

  lemma NormalFrame(topic: Text, payload: seq<Byte>)
    ensures Normal(DATA_SCHEMA, DATA_MODEL, DataMessage(topic, payload)) == DataMessage(StripBom(topic), payload)
  {
    var s, t, m := DATA_SCHEMA, DATA_MODEL, DataMessage(topic, payload);
    assert NormalFields(s, t, m, 0) == map[];
    assert NormalField(s, t, m, 0) == Some(Str(StripBom(topic)));
    assert NormalFields(s, t, m, 1) == map["topic" := Str(StripBom(topic))];
    assert NormalField(s, t, m, 1) == Some(Blob(payload));
  }

  method GetMessageSerializer() returns (s: Serializer)
    ensures fresh(s) && s.Schema() == DATA_SCHEMA
  {
    s := new Serializer();
    s.Define(DATA_MODEL, DATA_FIELDS);
  }

  method EncodeFrame(topic: Text, payload: seq<Byte>) returns (frame: seq<Byte>)
    requires |Encode(topic)| <= MAX_SAFE && |payload| <= MAX_SAFE
    ensures frame == FrameBytes(topic, payload)
  {
    var s := GetMessageSerializer();
    DataKinded(topic, payload);
    WritesFrameBytes(topic, payload);
    var r := s.Encode(DATA_MODEL, DataMessage(topic, payload));
    frame := r.value;
  }

  method DecodeFrame(buffer: seq<Byte>) returns (r: Result<Message, WireError>)
    ensures r == ReadMessage(DATA_SCHEMA, DATA_MODEL, buffer)
  {
    var s := GetMessageSerializer();
    r := s.Decode(DATA_MODEL, buffer);
  }
}
