/** Chunking frames for a data channel, and putting the chunks back together. */
module RtcFrameChunker {
  import opened Prelude
  import opened Utf8
  import opened Varint
  import opened Wire
  import opened MessageCodec

  const RTC_MAX_FRAME_BYTES: nat := 16 * 1024
  const CHUNK_DATA_BYTES: nat := RTC_MAX_FRAME_BYTES - 32
  const MAX_CHUNKS: nat := 255

  /** "__rivalis:chunk" */
  const CHUNK_CONTROL_TOPIC: Text := [95, 95, 114, 105, 118, 97, 108, 105, 115, 58, 99, 104, 117, 110, 107]

  datatype Piece = Piece(seqNo: nat, total: nat, index: nat, data: seq<Byte>)

  // ----- splitting -----

  function TotalChunks(frame: seq<Byte>): nat {
    (|frame| + CHUNK_DATA_BYTES - 1) / CHUNK_DATA_BYTES
  }

  function Min(a: nat, b: nat): nat {
    if a < b then a else b
  }

  /** Where chunk `i` starts; past the last chunk this is the end of the frame. */
  function Start(frame: seq<Byte>, i: nat): (at: nat)
    ensures at <= |frame|
  {
    Min(i * CHUNK_DATA_BYTES, |frame|)
  }

  function Slice(frame: seq<Byte>, i: nat): (data: seq<Byte>)
    ensures |data| <= CHUNK_DATA_BYTES
  {
    frame[Start(frame, i)..Start(frame, i + 1)]
  }

  /** The low sixteen bits a chunk carries of its sequence number. */
  function Seq16(seqNo: int): nat {
    seqNo % 0x1_0000
  }

  function ChunkOf(frame: seq<Byte>, seqNo: int, i: nat): Piece {
    Piece(Seq16(seqNo), TotalChunks(frame), i, Slice(frame, i))
  }

  function ChunkPayload(c: Piece): seq<Byte>
    requires c.seqNo < 0x1_0000 && c.total < 0x100 && c.index < 0x100
  {
    [c.seqNo / 0x100, c.seqNo % 0x100, c.total, c.index] + c.data
  }

  /** The first 17 bytes of every chunk message: the key, the length and the bytes of the topic. */
  function ChunkFramePrefix(): (p: seq<Byte>)
    ensures |p| == 17 && forall i :: 0 <= i < 17 ==> p[i] < 0x80
  {
    [0x0A, 0x0F, 95, 95, 114, 105, 118, 97, 108, 105, 115, 58, 99, 104, 117, 110, 107]
  }

  /** A chunk message; `ChunkBytesAreFrame` says it is the data frame of the chunk topic. */
  function ChunkBytes(c: Piece): seq<Byte>
    requires c.seqNo < 0x1_0000 && c.total < 0x100 && c.index < 0x100
  {
    ChunkFramePrefix() + LenField(2, ChunkPayload(c))
  }

  lemma FrameStarts(topic: Text, payload: seq<Byte>)
    ensures var t := Encode(topic);
            FrameBytes(topic, payload) == [0x0A] + VarintBytes(|t|) + t + LenField(2, payload)
  {
    var t := Encode(topic);
    assert VarintBytes(8 * 1 + 2) == [0x0A];
    assert LenField(1, t) == [0x0A] + (VarintBytes(|t|) + t);
    assert [0x0A] + (VarintBytes(|t|) + t) == [0x0A] + VarintBytes(|t|) + t;
  }

  /** The prefix is the chunk topic behind its key and length. */
  predicate IsChunkTopic(topic: Text) {
    [0x0A, 0x0F] + topic == ChunkFramePrefix()
  }

  lemma TopicIsChunkTopic(topic: Text)
    ensures topic == CHUNK_CONTROL_TOPIC <==> IsChunkTopic(topic)
  {
    assert [0x0A, 0x0F] + CHUNK_CONTROL_TOPIC == ChunkFramePrefix();
    if IsChunkTopic(topic) {
      assert topic == ([0x0A, 0x0F] + topic)[2..] == ChunkFramePrefix()[2..];
    }
  }

  lemma TopicBytes(topic: Text)
    requires IsChunkTopic(topic)
    ensures Encode(topic) == topic && |topic| == 15
  {
    forall i | 0 <= i < |topic|
      ensures topic[i] < 0x80
    {
      assert topic[i] == ChunkFramePrefix()[i + 2];
    }
    AsciiEncodes(topic);
  }

  lemma FrameOfTopic(topic: Text, payload: seq<Byte>)
    requires IsChunkTopic(topic)
    ensures FrameBytes(topic, payload) == ChunkFramePrefix() + LenField(2, payload)
  {
    TopicBytes(topic);
    FrameStarts(topic, payload);
    assert VarintBytes(15) == [0x0F] && [0x0A] + [0x0F] == [0x0A, 0x0F];
  }

  lemma ChunkBytesAreFrame(topic: Text, c: Piece)
    requires IsChunkTopic(topic)
    requires c.seqNo < 0x1_0000 && c.total < 0x100 && c.index < 0x100
    ensures ChunkBytes(c) == FrameBytes(topic, ChunkPayload(c))
  {
    FrameOfTopic(topic, ChunkPayload(c));
  }

  lemma Seq16Bytes(seqNo: int)
    ensures Seq16(seqNo) / 0x100 == seqNo / 0x100 % 0x100 && Seq16(seqNo) % 0x100 == seqNo % 0x100
    ensures Seq16(seqNo) < 0x1_0000
  {
  }

  lemma SliceIs(frame: seq<Byte>, k: nat)
    requires k < TotalChunks(frame)
    ensures (TotalChunks(frame) - 1) * 16352 < |frame| <= TotalChunks(frame) * 16352
    ensures k * 16352 <= |frame|
    ensures Slice(frame, k) == frame[k * 16352..if (k + 1) * 16352 < |frame| then (k + 1) * 16352 else |frame|]
  {
  }

  /**
   * Chunk `k` of a frame: a data frame of the chunk topic that carries the low sixteen bits of the sequence number,
   * high byte first, the number of chunks, `k`, and the next 16352 bytes of the frame or what is left of it.
   */
  lemma ChunkLayout(frame: seq<Byte>, seqNo: int, k: nat)
    requires k < TotalChunks(frame) <= 255
    ensures var n := TotalChunks(frame); (n - 1) * 16352 < |frame| <= n * 16352
    ensures var from, to := k * 16352, if (k + 1) * 16352 < |frame| then (k + 1) * 16352 else |frame|;
      && 0 <= from <= to <= |frame|
      && ChunkBytes(ChunkOf(frame, seqNo, k)) == FrameBytes(CHUNK_CONTROL_TOPIC,
        [seqNo / 0x100 % 0x100, seqNo % 0x100, TotalChunks(frame), k] + frame[from..to])
  {
    hide FrameBytes, ChunkBytes, TotalChunks, Slice, Seq16;
    TopicIsChunkTopic(CHUNK_CONTROL_TOPIC);
    Seq16Bytes(seqNo);
    ChunkBytesAreFrame(CHUNK_CONTROL_TOPIC, ChunkOf(frame, seqNo, k));
    SliceIs(frame, k);
  }

  /** Every chunk message stays under the message ceiling of the channel. */
  lemma ChunkFitsChannel(c: Piece)
    requires c.seqNo < 0x1_0000 && c.total < 0x100 && c.index < 0x100 && |c.data| <= CHUNK_DATA_BYTES
    ensures |ChunkBytes(c)| <= 16384
  {
    assert Pow128(0) == 1 && Pow128(1) == 128 && Pow128(2) == 128 * Pow128(1) && Pow128(3) == 128 * Pow128(2);
    VarintLength(|ChunkPayload(c)|, 3);
    assert |VarintBytes(8 * 2 + 2)| == 1;
  }

  lemma {:induction false} AsciiEncodes(s: Text)
    requires forall i :: 0 <= i < |s| ==> s[i] < 0x80
    ensures Encode(s) == s
  {
    if s != [] {
      AsciiEncodes(s[1..]);
    }
  }

  method ChunkFrame(frame: seq<Byte>, seqNo: int) returns (r: Option<seq<seq<Byte>>>)
    ensures r == None <==> TotalChunks(frame) > MAX_CHUNKS
    ensures r.Some? ==>
      && r.value == SentFor(frame, seqNo)
      && forall i :: 0 <= i < |r.value| ==> |r.value[i]| <= RTC_MAX_FRAME_BYTES
  {
    var total := TotalChunks(frame);
    if total > MAX_CHUNKS {
      return None;
    }
    var seqHi, seqLo := seqNo % 0x1_0000 / 0x100, seqNo % 0x100;
    assert seqLo == Seq16(seqNo) % 0x100;
    var chunks: seq<seq<Byte>> := [];
    var i := 0;
    while i < total
      invariant 0 <= i <= total && |chunks| == i
      invariant forall j :: 0 <= j < i ==>
        chunks[j] == ChunkBytes(ChunkOf(frame, seqNo, j)) && |chunks[j]| <= RTC_MAX_FRAME_BYTES
    {
      var start := i * CHUNK_DATA_BYTES;
      var end := Min(start + CHUNK_DATA_BYTES, |frame|);
      var data := frame[start..end];
      assert data == Slice(frame, i);
      var payload: seq<Byte> := [seqHi, seqLo, total, i] + data;
      var chunk := EncodeChunk(payload, ChunkOf(frame, seqNo, i));
      chunks := chunks + [chunk];
      i := i + 1;
    }
    ChunksFit(frame, seqNo);
    assert chunks == Messages(AllChunks(frame, seqNo));
    r := Some(chunks);
  }

  method EncodeChunk(payload: seq<Byte>, ghost c: Piece) returns (chunk: seq<Byte>)
    requires c.seqNo < 0x1_0000 && c.total < 0x100 && c.index < 0x100 && |c.data| <= CHUNK_DATA_BYTES
    requires payload == ChunkPayload(c)
    ensures chunk == ChunkBytes(c) && |chunk| <= RTC_MAX_FRAME_BYTES
  {
    var topic := ChunkTopic();
    ChunkBytesAreFrame(topic, c);
    ChunkFitsChannel(c);
    TopicBytes(topic);
    chunk := EncodeFrame(topic, payload);
  }

  method ChunkTopic() returns (topic: Text)
    ensures IsChunkTopic(topic)
  {
    topic := CHUNK_CONTROL_TOPIC;
    TopicIsChunkTopic(topic);
  }

  // ----- detection -----

  method IsChunkFrame(buf: seq<Byte>) returns (matches: bool)
    ensures matches <==> LooksLikeChunk(buf)
  {
    if |buf| < 17 {
      return false;
    }
    var sample := GetChunkFramePrefix();
    for i := 0 to 17
      invariant buf[..i] == sample[..i]
    {
      if buf[i] != sample[i] {
        assert buf[..17][i] != sample[i];
        return false;
      }
      assert buf[..i + 1] == buf[..i] + [buf[i]];
      assert sample[..i + 1] == sample[..i] + [sample[i]];
    }
    assert sample[..17] == sample;
    return true;
  }

  method GetChunkFramePrefix() returns (p: seq<Byte>)
    ensures p == ChunkFramePrefix()
  {
    var topic := ChunkTopic();
    TopicBytes(topic);
    FrameOfTopic(topic, []);
    var sample := EncodeFrame(topic, []);
    p := sample[..17];
  }

  /** Comparing 17 bytes is enough: an encoded message passes exactly when its topic is the chunk topic. */
  lemma PrefixDecidesTopic(topic: Text, payload: seq<Byte>)
    ensures LooksLikeChunk(FrameBytes(topic, payload)) <==> topic == CHUNK_CONTROL_TOPIC
  {
    TopicIsChunkTopic(CHUNK_CONTROL_TOPIC);
    TopicIsChunkTopic(topic);
    PrefixDecides(topic, payload, ChunkFramePrefix()[2..]);
  }

  lemma PrefixDecides(topic: Text, payload: seq<Byte>, chunkTopic: Text)
    requires IsChunkTopic(chunkTopic)
    ensures (|FrameBytes(topic, payload)| >= 17 && FrameBytes(topic, payload)[..17] == ChunkFramePrefix())
       <==> IsChunkTopic(topic)
  {
    var b, t, v := FrameBytes(topic, payload), Encode(topic), VarintBytes(|Encode(topic)|);
    if |b| >= 17 && b[..17] == ChunkFramePrefix() {
      FrameStarts(topic, payload);
      assert b[1] == b[..17][1] == 0x0F && b[1] == v[0];
      assert v == [15] && |t| == 15;
      assert b[2..17] == t && b[..17][2..] == t;
      assert t == ChunkFramePrefix()[2..] == chunkTopic by {
        assert ([0x0A, 0x0F] + chunkTopic)[2..] == chunkTopic;
      }
      TopicBytes(chunkTopic);
      EncodeInjective(topic, chunkTopic);
    }
    if IsChunkTopic(topic) {
      FrameOfTopic(topic, payload);
      assert b[..17] == ChunkFramePrefix();
    }
  }

  // ----- parsing -----

  function DecodeChunkPayload(payload: seq<Byte>): Option<Piece> {
    if |payload| < 4 then None
    else Some(Piece(payload[0] as int * 0x100 + payload[1], payload[2], payload[3], payload[4..]))
  }

  /** What the receiving side makes of one message. */
  function ParseChunk(b: seq<Byte>): Option<Piece> {
    ChunkIn(ReadMessage(DATA_SCHEMA, DATA_MODEL, b))
  }

  function ChunkIn(decoded: Result<Message, WireError>): Option<Piece> {
    if decoded.Ok? && "payload" in decoded.value && decoded.value["payload"].Blob?
    then DecodeChunkPayload(decoded.value["payload"].bytes)
    else None
  }

  lemma ParseInvertsChunkBytes(c: Piece)
    requires c.seqNo < 0x1_0000 && c.total < 0x100 && c.index < 0x100 && |c.data| <= CHUNK_DATA_BYTES
    ensures ParseChunk(ChunkBytes(c)) == Some(c)
  {
    TopicIsChunkTopic(CHUNK_CONTROL_TOPIC);
    ParseInvertsFrame(ChunkFramePrefix()[2..], c);
  }

  lemma ParseInvertsFrame(topic: Text, c: Piece)
    requires IsChunkTopic(topic)
    requires c.seqNo < 0x1_0000 && c.total < 0x100 && c.index < 0x100 && |c.data| <= CHUNK_DATA_BYTES
    ensures ParseChunk(ChunkBytes(c)) == Some(c)
  {
    TopicBytes(topic);
    ChunkBytesAreFrame(topic, c);
    ReadsFrameBytes(topic, ChunkPayload(c));
    ChunkInPayload(StripBom(topic), c);
  }

  lemma ChunkInPayload(topic: Text, c: Piece)
    requires c.seqNo < 0x1_0000 && c.total < 0x100 && c.index < 0x100
    ensures ChunkIn(Ok(DataMessage(topic, ChunkPayload(c)))) == Some(c)
  {
    assert ChunkPayload(c)[4..] == c.data;
  }

  // ----- reassembly -----

  /** The reassembler's fields; `seqNo` is -1 when no message is under way. */
  datatype Assembly = Assembly(seqNo: int, total: nat, received: nat, chunks: seq<Option<seq<Byte>>>)

  const IDLE: Assembly := Assembly(-1, 0, 0, [])

  function CountSome(chunks: seq<Option<seq<Byte>>>): (n: nat)
    ensures n <= |chunks|
  {
    if chunks == [] then 0 else (if chunks[0].Some? then 1 else 0) + CountSome(chunks[1..])
  }

  function Joined(chunks: seq<Option<seq<Byte>>>): seq<Byte> {
    if chunks == [] then [] else DataOf(chunks[0]) + Joined(chunks[1..])
  }

  function DataOf(chunk: Option<seq<Byte>>): seq<Byte> {
    if chunk.Some? then chunk.value else []
  }

  ghost predicate Coherent(a: Assembly) {
    |a.chunks| == a.total && a.received == CountSome(a.chunks) && (a.seqNo == -1 ==> a == IDLE)
  }

  function Blank(seqNo: nat, total: nat): Assembly {
    Assembly(seqNo, total, 0, seq(total, _ => None))
  }

  /** One step of the reassembler: its next state and the frame it hands out, if any. */
  function Feed(a: Assembly, c: Piece): (r: (Assembly, Option<seq<Byte>>))
    requires |a.chunks| == a.total
    ensures |r.0.chunks| == r.0.total
  {
    var b := if c.seqNo != a.seqNo then Blank(c.seqNo, c.total) else a;
    if c.index >= b.total || c.total != b.total then (b, None)
    else if b.chunks[c.index].Some? then (b, None)
    else
      var b' := b.(chunks := b.chunks[c.index := Some(c.data)], received := b.received + 1);
      if b'.received < b'.total then (b', None) else (IDLE, Some(Joined(b'.chunks)))
  }

  class ChunkReassembler {
    var activeSeq: int
    var totalChunks: nat
    var received: nat
    var chunks: seq<Option<seq<Byte>>>

    ghost function State(): Assembly
      reads this
    {
      Assembly(activeSeq, totalChunks, received, chunks)
    }

    ghost predicate Valid()
      reads this
    {
      Coherent(State())
    }

    constructor ()
      ensures Valid() && State() == IDLE
    {
      activeSeq, totalChunks, received, chunks := -1, 0, 0, [];
    }

    method FeedChunk(seqNo: nat, total: nat, index: nat, data: seq<Byte>) returns (frame: Option<seq<Byte>>)
      requires Valid()
      modifies this
      ensures Valid()
      ensures (State(), frame) == Feed(old(State()), Piece(seqNo, total, index, data))
    {
      if seqNo != activeSeq {
        activeSeq := seqNo;
        totalChunks := total;
        chunks := seq(total, _ => None);
        received := 0;
        CountNone(chunks);
      }
      if index >= totalChunks || total != totalChunks {
        return None;
      }
      if chunks[index].Some? {
        return None;
      }
      CountUpdate(chunks, index, data);
      chunks := chunks[index := Some(data)];
      received := received + 1;
      if received < totalChunks {
        return None;
      }
      var result := Concatenate();
      Clear();
      frame := Some(result);
    }

    method Concatenate() returns (result: seq<Byte>)
      ensures result == Joined(chunks)
    {
      result := [];
      var i := 0;
      while i < |chunks|
        invariant 0 <= i <= |chunks|
        invariant result + Joined(chunks[i..]) == Joined(chunks)
      {
        JoinedStep(chunks, i, result);
        assert chunks[i] == None ==> result + DataOf(chunks[i]) == result;
        if chunks[i].Some? {
          result := result + chunks[i].value;
        }
        i := i + 1;
      }
    }

    method Clear()
      modifies this
      ensures Valid() && State() == IDLE
    {
      activeSeq, totalChunks, chunks, received := -1, 0, [], 0;
    }
  }

  lemma JoinedStep(chunks: seq<Option<seq<Byte>>>, i: nat, done: seq<Byte>)
    requires i < |chunks|
    ensures done + Joined(chunks[i..])
         == (done + DataOf(chunks[i])) + Joined(chunks[i + 1..])
  {
    var rest := chunks[i..];
    assert rest[0] == chunks[i] && rest[1..] == chunks[i + 1..];
    assert done + (DataOf(chunks[i]) + Joined(chunks[i + 1..])) == (done + DataOf(chunks[i])) + Joined(chunks[i + 1..]);
  }

  lemma {:induction false} CountNone(chunks: seq<Option<seq<Byte>>>)
    requires forall i :: 0 <= i < |chunks| ==> chunks[i] == None
    ensures CountSome(chunks) == 0
  {
    if chunks != [] {
      CountNone(chunks[1..]);
    }
  }

  lemma {:induction false} CountUpdate(chunks: seq<Option<seq<Byte>>>, index: nat, data: seq<Byte>)
    requires index < |chunks| && chunks[index] == None
    ensures CountSome(chunks[index := Some(data)]) == CountSome(chunks) + 1
  {
    if index > 0 {
      CountUpdate(chunks[1..], index - 1, data);
      assert chunks[index := Some(data)][1..] == chunks[1..][index - 1 := Some(data)];
    } else {
      assert chunks[index := Some(data)][1..] == chunks[1..];
    }
  }

  lemma {:induction false} CountAll(chunks: seq<Option<seq<Byte>>>)
    ensures CountSome(chunks) == |chunks| <==> forall i :: 0 <= i < |chunks| ==> chunks[i].Some?
  {
    if chunks != [] {
      CountAll(chunks[1..]);
      assert forall i :: 1 <= i < |chunks| ==> chunks[i] == chunks[1..][i - 1];
      assert (forall i :: 0 <= i < |chunks[1..]| ==> chunks[1..][i].Some?) <==>
             (forall i :: 1 <= i < |chunks| ==> chunks[i].Some?);
    }
  }

  // ----- any order, with duplicates -----

  /** Which of the chunks `0..total` have arrived in `arrivals`. */
  predicate Covered(arrivals: seq<nat>, total: nat) {
    forall i :: 0 <= i < total ==> i in arrivals
  }

  /** The reassembler while the chunks in `arrivals` of one frame have come in and some are missing. */
  ghost predicate Midway(a: Assembly, frame: seq<Byte>, seqNo: int, arrivals: seq<nat>) {
    && Coherent(a) && a.seqNo == Seq16(seqNo) && a.total == TotalChunks(frame)
    && forall i :: 0 <= i < a.total ==> a.chunks[i] == if i in arrivals then Some(Slice(frame, i)) else None
  }

  lemma FeedMidway(a: Assembly, frame: seq<Byte>, seqNo: int, arrivals: seq<nat>, i: nat)
    requires Midway(a, frame, seqNo, arrivals) && i < TotalChunks(frame)
    ensures var (a', out) := Feed(a, ChunkOf(frame, seqNo, i));
            if Covered(arrivals + [i], TotalChunks(frame)) && i !in arrivals then a' == IDLE && out == Some(frame)
            else Midway(a', frame, seqNo, arrivals + [i]) && out == None
  {
    var total := TotalChunks(frame);
    if i !in arrivals {
      var chunks := a.chunks[i := Some(Slice(frame, i))];
      CountUpdate(a.chunks, i, Slice(frame, i));
      CountAll(chunks);
      assert forall j :: 0 <= j < total ==> (chunks[j].Some? <==> j in arrivals + [i]);
      if Covered(arrivals + [i], total) {
        assert forall j :: 0 <= j < total ==> j in arrivals + [i];
        JoinedSlices(chunks, frame, 0);
        assert chunks[0..] == chunks && frame[0..] == frame;
      }
    }
  }

  lemma {:induction false} JoinedSlices(chunks: seq<Option<seq<Byte>>>, frame: seq<Byte>, i: nat)
    requires |chunks| == TotalChunks(frame) && i <= |chunks|
    requires forall j :: 0 <= j < |chunks| ==> chunks[j] == Some(Slice(frame, j))
    ensures Joined(chunks[i..]) == frame[Start(frame, i)..]
    decreases |chunks| - i
  {
    if i < |chunks| {
      JoinedSlices(chunks, frame, i + 1);
      var rest := chunks[i..];
      assert rest[0] == chunks[i] && rest[1..] == chunks[i + 1..];
      assert Slice(frame, i) + frame[Start(frame, i + 1)..] == frame[Start(frame, i)..];
    }
  }

  /** The state after a run of chunks and everything handed out on the way. */
  function FeedAll(a: Assembly, chunks: seq<Piece>): (r: (Assembly, seq<Option<seq<Byte>>>))
    requires |a.chunks| == a.total
    ensures |r.0.chunks| == r.0.total && |r.1| == |chunks|
  {
    if chunks == [] then (a, []) else
      var (b, outs) := FeedAll(a, chunks[..|chunks| - 1]);
      var (c, out) := Feed(b, chunks[|chunks| - 1]);
      (c, outs + [out])
  }

  /** The chunks of a frame in the order `arrivals` lists them. */
  function Arriving(frame: seq<Byte>, seqNo: int, arrivals: seq<nat>): (cs: seq<Piece>)
    ensures |cs| == |arrivals|
  {
    seq(|arrivals|, k requires 0 <= k < |arrivals| => ChunkOf(frame, seqNo, arrivals[k]))
  }

  ghost predicate Indices(frame: seq<Byte>, arrivals: seq<nat>) {
    forall k :: 0 <= k < |arrivals| ==> arrivals[k] < TotalChunks(frame)
  }

  lemma ArrivingLast(a: Assembly, frame: seq<Byte>, seqNo: int, before: seq<nat>, i: nat)
    requires |a.chunks| == a.total
    requires Indices(frame, before) && i < TotalChunks(frame)
    ensures Indices(frame, before + [i])
    ensures var (b, outs) := FeedAll(a, Arriving(frame, seqNo, before));
            var (c, out) := Feed(b, ChunkOf(frame, seqNo, i));
            FeedAll(a, Arriving(frame, seqNo, before + [i])) == (c, outs + [out])
  {
    var all := Arriving(frame, seqNo, before + [i]);
    assert all[..|all| - 1] == Arriving(frame, seqNo, before);
    assert all[|all| - 1] == ChunkOf(frame, seqNo, i);
  }

  lemma {:induction false} MidwayAfter(frame: seq<Byte>, seqNo: int, arrivals: seq<nat>)
    requires Indices(frame, arrivals) && !Covered(arrivals, TotalChunks(frame))
    ensures Midway(FeedAll(BlankFor(frame, seqNo), Arriving(frame, seqNo, arrivals)).0, frame, seqNo, arrivals)
    ensures forall k :: 0 <= k < |arrivals| ==>
      FeedAll(BlankFor(frame, seqNo), Arriving(frame, seqNo, arrivals)).1[k] == None
  {
    var blank := BlankFor(frame, seqNo);
    if arrivals == [] {
      CountNone(blank.chunks);
    } else {
      var n := |arrivals| - 1;
      var before, i := arrivals[..n], arrivals[n];
      assert arrivals == before + [i];
      assert !Covered(before, TotalChunks(frame));
      MidwayAfter(frame, seqNo, before);
      ArrivingLast(blank, frame, seqNo, before, i);
      FeedMidway(FeedAll(blank, Arriving(frame, seqNo, before)).0, frame, seqNo, before, i);
    }
  }

  function BlankFor(frame: seq<Byte>, seqNo: int): Assembly {
    Blank(Seq16(seqNo), TotalChunks(frame))
  }

  /** A new sequence number starts over, whatever was under way. */
  lemma {:induction false} StartsOver(a: Assembly, frame: seq<Byte>, seqNo: int, arrivals: seq<nat>)
    requires Coherent(a) && a.seqNo != Seq16(seqNo) && arrivals != [] && Indices(frame, arrivals)
    ensures FeedAll(a, Arriving(frame, seqNo, arrivals))
      == FeedAll(BlankFor(frame, seqNo), Arriving(frame, seqNo, arrivals))
  {
    var n := |arrivals| - 1;
    var before, i := arrivals[..n], arrivals[n];
    assert arrivals == before + [i];
    ArrivingLast(a, frame, seqNo, before, i);
    ArrivingLast(BlankFor(frame, seqNo), frame, seqNo, before, i);
    if before == [] {
      assert Feed(a, ChunkOf(frame, seqNo, i)) == Feed(BlankFor(frame, seqNo), ChunkOf(frame, seqNo, i));
    } else {
      StartsOver(a, frame, seqNo, before);
    }
  }

  /**
   * Chunks in any order, with duplicates: nothing comes out until the last missing chunk arrives, and
   * then exactly the frame comes out and the reassembler is idle again.
   */
  lemma ReassemblesFrame(a: Assembly, frame: seq<Byte>, seqNo: int, arrivals: seq<nat>)
    requires Coherent(a) && a.seqNo != Seq16(seqNo)
    requires arrivals != [] && Indices(frame, arrivals)
    requires Covered(arrivals, TotalChunks(frame)) && !Covered(arrivals[..|arrivals| - 1], TotalChunks(frame))
    ensures var (b, outs) := FeedAll(a, Arriving(frame, seqNo, arrivals));
            && b == IDLE
            && outs[|arrivals| - 1] == Some(frame)
            && forall k :: 0 <= k < |arrivals| - 1 ==> outs[k] == None
  {
    hide Arriving, FeedAll;
    var n, blank := |arrivals| - 1, BlankFor(frame, seqNo);
    var before, i := arrivals[..n], arrivals[n];
    assert arrivals == before + [i];
    StartsOver(a, frame, seqNo, arrivals);
    MidwayAfter(frame, seqNo, before);
    ArrivingLast(blank, frame, seqNo, before, i);
    LastWasMissing(before, i, TotalChunks(frame));
    FeedMidway(FeedAll(blank, Arriving(frame, seqNo, before)).0, frame, seqNo, before, i);
  }

  lemma LastWasMissing(before: seq<nat>, i: nat, total: nat)
    requires Covered(before + [i], total) && !Covered(before, total)
    ensures i !in before
  {
    var j :| 0 <= j < total && j !in before;
    assert j in before + [i];
  }

  // ----- a stream on an ordered channel -----

  function UpTo(n: nat): (s: seq<nat>)
    ensures |s| == n && forall i :: 0 <= i < n ==> s[i] == i
  {
    if n == 0 then [] else UpTo(n - 1) + [n - 1]
  }

  function AllChunks(frame: seq<Byte>, seqNo: int): seq<Piece> {
    seq(TotalChunks(frame), i requires 0 <= i < TotalChunks(frame) => ChunkOf(frame, seqNo, i))
  }

  function StreamChunks(frames: seq<seq<Byte>>, seqNos: seq<int>): seq<Piece>
    requires |frames| == |seqNos|
  {
    if frames == [] then [] else
      var n := |frames| - 1;
      StreamChunks(frames[..n], seqNos[..n]) + AllChunks(frames[n], seqNos[n])
  }

  function Delivered(outs: seq<Option<seq<Byte>>>): seq<seq<Byte>> {
    if outs == [] then [] else
      var n := |outs| - 1;
      Delivered(outs[..n]) + if outs[n].Some? then [outs[n].value] else []
  }

  lemma {:induction false} FeedAllAppend(a: Assembly, xs: seq<Piece>, ys: seq<Piece>)
    requires |a.chunks| == a.total
    ensures FeedAll(a, xs + ys).0 == FeedAll(FeedAll(a, xs).0, ys).0
    ensures FeedAll(a, xs + ys).1 == FeedAll(a, xs).1 + FeedAll(FeedAll(a, xs).0, ys).1
  {
    if ys == [] {
      assert xs + ys == xs;
    } else {
      var n := |ys| - 1;
      FeedAllAppend(a, xs, ys[..n]);
      assert (xs + ys)[..|xs + ys| - 1] == xs + ys[..n];
    }
  }

  lemma {:induction false} DeliveredAppend(xs: seq<Option<seq<Byte>>>, ys: seq<Option<seq<Byte>>>)
    ensures Delivered(xs + ys) == Delivered(xs) + Delivered(ys)
  {
    if ys == [] {
      assert xs + ys == xs;
    } else {
      var n := |ys| - 1;
      DeliveredAppend(xs, ys[..n]);
      assert (xs + ys)[..|xs + ys| - 1] == xs + ys[..n];
    }
  }

  lemma {:induction false} DeliveredNothing(outs: seq<Option<seq<Byte>>>)
    requires forall k :: 0 <= k < |outs| ==> outs[k] == None
    ensures Delivered(outs) == []
  {
    if outs != [] {
      DeliveredNothing(outs[..|outs| - 1]);
    }
  }

  lemma InOrder(frame: seq<Byte>)
    requires frame != []
    ensures UpTo(TotalChunks(frame)) != [] && Indices(frame, UpTo(TotalChunks(frame)))
    ensures Covered(UpTo(TotalChunks(frame)), TotalChunks(frame))
    ensures !Covered(UpTo(TotalChunks(frame))[..TotalChunks(frame) - 1], TotalChunks(frame))
  {
    var n, arrivals := TotalChunks(frame), UpTo(TotalChunks(frame));
    forall i | 0 <= i < n
      ensures i in arrivals
    {
      assert arrivals[i] == i;
    }
    assert n - 1 !in arrivals[..n - 1];
  }

  lemma WholeFrame(a: Assembly, frame: seq<Byte>, seqNo: int)
    requires Coherent(a) && a.seqNo != Seq16(seqNo) && frame != []
    ensures FeedAll(a, AllChunks(frame, seqNo)).0 == IDLE
    ensures Delivered(FeedAll(a, AllChunks(frame, seqNo)).1) == [frame]
  {
    var n := TotalChunks(frame);
    InOrder(frame);
    assert AllChunks(frame, seqNo) == Arriving(frame, seqNo, UpTo(n));
    ReassemblesFrame(a, frame, seqNo, UpTo(n));
    OnlyLast(FeedAll(a, AllChunks(frame, seqNo)).1, frame);
  }

  lemma OnlyLast(outs: seq<Option<seq<Byte>>>, frame: seq<Byte>)
    requires outs != [] && outs[|outs| - 1] == Some(frame)
    requires forall k :: 0 <= k < |outs| - 1 ==> outs[k] == None
    ensures Delivered(outs) == [frame]
  {
    DeliveredNothing(outs[..|outs| - 1]);
  }

  /** Frames chunked one after the other come out one after the other, whatever their sequence numbers. */
  lemma {:induction false} StreamInOrder(frames: seq<seq<Byte>>, seqNos: seq<int>)
    requires |frames| == |seqNos| && forall i :: 0 <= i < |frames| ==> frames[i] != []
    ensures FeedAll(IDLE, StreamChunks(frames, seqNos)).0 == IDLE
    ensures Delivered(FeedAll(IDLE, StreamChunks(frames, seqNos)).1) == frames
  {
    hide FeedAll, Delivered, AllChunks;
    if frames == [] {
      NothingArrives();
    } else {
      var n := |frames| - 1;
      var before := StreamChunks(frames[..n], seqNos[..n]);
      StreamInOrder(frames[..n], seqNos[..n]);
      OneMoreFrame(before, frames[..n], frames[n], seqNos[n]);
      assert StreamChunks(frames, seqNos) == before + AllChunks(frames[n], seqNos[n]);
      assert frames == frames[..n] + [frames[n]];
    }
  }

  lemma NothingArrives()
    ensures FeedAll(IDLE, []).0 == IDLE && Delivered(FeedAll(IDLE, []).1) == []
  {
  }

  lemma OneMoreFrame(before: seq<Piece>, frames: seq<seq<Byte>>, frame: seq<Byte>, seqNo: int)
    requires FeedAll(IDLE, before).0 == IDLE && Delivered(FeedAll(IDLE, before).1) == frames && frame != []
    ensures FeedAll(IDLE, before + AllChunks(frame, seqNo)).0 == IDLE
    ensures Delivered(FeedAll(IDLE, before + AllChunks(frame, seqNo)).1) == frames + [frame]
  {
    assert Coherent(IDLE);
    hide FeedAll, Delivered, AllChunks;
    FeedAllAppend(IDLE, before, AllChunks(frame, seqNo));
    WholeFrame(IDLE, frame, seqNo);
    DeliveredAppend(FeedAll(IDLE, before).1, FeedAll(IDLE, AllChunks(frame, seqNo)).1);
  }

  // ----- the whole trip, over bytes -----

  predicate FitsChunk(c: Piece) {
    c.seqNo < 0x1_0000 && c.total < 0x100 && c.index < 0x100 && |c.data| <= CHUNK_DATA_BYTES
  }

  ghost predicate AllFit(chunks: seq<Piece>) {
    forall k :: 0 <= k < |chunks| ==> FitsChunk(chunks[k])
  }

  /** The messages that carry these chunks. */
  ghost function Messages(chunks: seq<Piece>): (ms: seq<seq<Byte>>)
    requires AllFit(chunks)
    ensures |ms| == |chunks| && forall k :: 0 <= k < |chunks| ==> ms[k] == ChunkBytes(chunks[k])
  {
    if chunks == [] then [] else
      var n := |chunks| - 1;
      Messages(chunks[..n]) + [ChunkBytes(chunks[n])]
  }

  lemma ChunksFit(frame: seq<Byte>, seqNo: int)
    requires TotalChunks(frame) <= MAX_CHUNKS
    ensures AllFit(AllChunks(frame, seqNo))
  {
  }

  /** What is sent for one frame. */
  ghost function SentFor(frame: seq<Byte>, seqNo: int): seq<seq<Byte>>
    requires TotalChunks(frame) <= MAX_CHUNKS
  {
    ChunksFit(frame, seqNo);
    Messages(AllChunks(frame, seqNo))
  }

  ghost function SentForAll(frames: seq<seq<Byte>>, seqNos: seq<int>): seq<seq<Byte>>
    requires |frames| == |seqNos| && forall i :: 0 <= i < |frames| ==> TotalChunks(frames[i]) <= MAX_CHUNKS
  {
    if frames == [] then [] else
      var n := |frames| - 1;
      SentForAll(frames[..n], seqNos[..n]) + SentFor(frames[n], seqNos[n])
  }

  predicate LooksLikeChunk(b: seq<Byte>) {
    |b| >= 17 && b[..17] == ChunkFramePrefix()
  }

  /** A message that looks like a chunk and decodes to one is fed to the reassembler; others are not its business. */
  function Receive(a: Assembly, b: seq<Byte>): (r: (Assembly, seq<seq<Byte>>))
    requires |a.chunks| == a.total
    ensures |r.0.chunks| == r.0.total
  {
    if LooksLikeChunk(b) && ParseChunk(b).Some? then
      var (next, out) := Feed(a, ParseChunk(b).value);
      (next, if out.Some? then [out.value] else [])
    else (a, [])
  }

  function ReceiveAll(a: Assembly, messages: seq<seq<Byte>>): (r: (Assembly, seq<seq<Byte>>))
    requires |a.chunks| == a.total
    ensures |r.0.chunks| == r.0.total
  {
    if messages == [] then (a, []) else
      var n := |messages| - 1;
      var (b, before) := ReceiveAll(a, messages[..n]);
      var (c, out) := Receive(b, messages[n]);
      (c, before + out)
  }

  /** Each message `ChunkFrame` sends is parsed back to the chunk it was made from. */
  lemma SentChunkParses(c: Piece)
    requires FitsChunk(c)
    ensures LooksLikeChunk(ChunkBytes(c)) && ParseChunk(ChunkBytes(c)) == Some(c)
  {
    ParseInvertsChunkBytes(c);
    assert ChunkBytes(c)[..17] == ChunkFramePrefix();
  }

  lemma {:induction false} ReceivedAsFed(a: Assembly, chunks: seq<Piece>)
    requires |a.chunks| == a.total && AllFit(chunks)
    ensures ReceiveAll(a, Messages(chunks)) == (FeedAll(a, chunks).0, Delivered(FeedAll(a, chunks).1))
    decreases |chunks|
  {
    hide ChunkBytes, ParseChunk, LooksLikeChunk, Feed;
    if chunks != [] {
      var n := |chunks| - 1;
      ReceivedAsFed(a, chunks[..n]);
      var ms := Messages(chunks);
      assert ms[..n] == Messages(chunks[..n]) && ms[n] == ChunkBytes(chunks[n]);
      SentChunkParses(chunks[n]);
      var outs := FeedAll(a, chunks).1;
      assert outs[..n] == FeedAll(a, chunks[..n]).1;
    }
  }

  lemma {:induction false} ReceiveAllAppend(a: Assembly, xs: seq<seq<Byte>>, ys: seq<seq<Byte>>)
    requires |a.chunks| == a.total
    ensures ReceiveAll(a, xs + ys).0 == ReceiveAll(ReceiveAll(a, xs).0, ys).0
    ensures ReceiveAll(a, xs + ys).1 == ReceiveAll(a, xs).1 + ReceiveAll(ReceiveAll(a, xs).0, ys).1
    decreases |ys|
  {
    hide Receive;
    if ys == [] {
      assert xs + ys == xs;
    } else {
      var n := |ys| - 1;
      ReceiveAllAppend(a, xs, ys[..n]);
      assert (xs + ys)[..|xs + ys| - 1] == xs + ys[..n];
    }
  }

  lemma NothingFed()
    ensures FeedAll(IDLE, []) == (IDLE, []) && Delivered([]) == []
  {
  }

  /** A frame arrives unless it is empty: an empty one has no chunks, and nothing tells the receiver of it. */
  lemma ArrivesUnlessEmpty(frame: seq<Byte>, seqNo: int)
    requires TotalChunks(frame) <= MAX_CHUNKS
    ensures ReceiveAll(IDLE, SentFor(frame, seqNo)) == (IDLE, if frame == [] then [] else [frame])
  {
    hide ReceiveAll, FeedAll, Delivered;
    ChunksFit(frame, seqNo);
    ReceivedAsFed(IDLE, AllChunks(frame, seqNo));
    assert Coherent(IDLE);
    if frame == [] {
      NothingFed();
    } else {
      WholeFrame(IDLE, frame, seqNo);
    }
  }

  /** The one frame that gets lost on the way. */
  lemma EmptyFrameIsLost(frame: seq<Byte>, seqNo: int)
    requires TotalChunks(frame) <= MAX_CHUNKS
    ensures AllChunks(frame, seqNo) == [] <==> frame == []
    ensures ReceiveAll(IDLE, SentFor(frame, seqNo)).1 == [] <==> frame == []
  {
    hide ReceiveAll;
    ArrivesUnlessEmpty(frame, seqNo);
  }

  function NotEmpty(frames: seq<seq<Byte>>): seq<seq<Byte>> {
    if frames == [] then [] else
      var n := |frames| - 1;
      NotEmpty(frames[..n]) + if frames[n] == [] then [] else [frames[n]]
  }

  /** From the bytes sent to the frames received: all frames that are not empty, in the order they were sent. */
  lemma {:induction false} StreamArrives(frames: seq<seq<Byte>>, seqNos: seq<int>)
    requires |frames| == |seqNos| && forall i :: 0 <= i < |frames| ==> TotalChunks(frames[i]) <= MAX_CHUNKS
    ensures ReceiveAll(IDLE, SentForAll(frames, seqNos)) == (IDLE, NotEmpty(frames))
  {
    if frames != [] {
      var n := |frames| - 1;
      StreamArrives(frames[..n], seqNos[..n]);
      ReceiveAllAppend(IDLE, SentForAll(frames[..n], seqNos[..n]), SentFor(frames[n], seqNos[n]));
      ArrivesUnlessEmpty(frames[n], seqNos[n]);
    }
  }
}
