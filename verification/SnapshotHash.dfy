/** The snapshot hash as the canonical text it digests, and what equal hashes say. */
module SnapshotHash {
  import opened Prelude
  import opened Utf8
  import opened FleetTypes
  import opened CanonicalSame
  import C = Canonical

  /** A digest stands for the text it was taken of: no two texts share one. */
  datatype Hash = Digest(text: C.Str)

  function Hash64(v: C.Json): Hash {
    Digest(C.Canonicalize(v))
  }

  // ----- strings are UTF-16 in JavaScript -----

  function Units(c: Scalar): (u: C.Str)
    ensures u != []
  {
    if c < 0x1_0000 then [c] else [0xD800 + (c - 0x1_0000) / 0x400, 0xDC00 + (c - 0x1_0000) % 0x400]
  }

  function Utf16(s: Text): C.Str {
    if s == [] then [] else Units(s[0]) + Utf16(s[1..])
  }

  lemma UnitsRead(a: Scalar, x: C.Str, b: Scalar, y: C.Str)
    requires Units(a) + x == Units(b) + y
    ensures a == b && x == y
  {
    var s := Units(a) + x;
    assert s[0] == Units(a)[0] == Units(b)[0];
    if a >= 0x1_0000 && b >= 0x1_0000 {
      assert s[1] == Units(a)[1] == Units(b)[1];
    }
    assert x == s[|Units(a)|..] && y == s[|Units(b)|..];
  }

  lemma {:induction false} Utf16Injective(s: Text, t: Text)
    requires Utf16(s) == Utf16(t)
    ensures s == t
  {
    if s != [] && t != [] {
      UnitsRead(s[0], Utf16(s[1..]), t[0], Utf16(t[1..]));
      Utf16Injective(s[1..], t[1..]);
      assert s == [s[0]] + s[1..] && t == [t[0]] + t[1..];
    }
  }

  // ----- objects with known fields -----

  function Ascii(name: string): (s: C.Str)
    ensures |s| == |name|
    ensures forall i :: 0 <= i < |name| && name[i] < '\U{80}' ==> s[i] == name[i] as int
  {
    seq(|name|, i requires 0 <= i < |name| => if name[i] < '\U{80}' then name[i] as int else 0)
  }

  function Fields(names: seq<string>, values: seq<C.Json>): (es: seq<C.Entry>)
    requires |names| == |values|
    ensures |es| == |names|
    ensures forall i :: 0 <= i < |names| ==> es[i] == C.Entry(Ascii(names[i]), values[i])
  {
    seq(|names|, i requires 0 <= i < |names| => C.Entry(Ascii(names[i]), values[i]))
  }

  /** No two names agree in length and first character. */
  ghost predicate Distinguished(names: seq<string>) {
    && (forall i :: 0 <= i < |names| ==> |names[i]| > 0 && names[i][0] < '\U{80}')
    && (forall i, j :: 0 <= i < j < |names| ==> |names[i]| != |names[j]| || names[i][0] != names[j][0])
  }

  lemma FieldsDiffer(names: seq<string>, i: nat, j: nat)
    requires Distinguished(names) && i < j < |names|
    ensures Ascii(names[i]) != Ascii(names[j])
  {
    assert Ascii(names[i])[0] == names[i][0] as int;
    assert Ascii(names[j])[0] == names[j][0] as int;
  }

  /** Objects with the same fields are the same data only if each field is. */
  lemma SameFields(names: seq<string>, a: seq<C.Json>, b: seq<C.Json>)
    requires Distinguished(names) && |names| == |a| == |b|
    requires Same(C.Obj(Fields(names, a)), C.Obj(Fields(names, b)))
    ensures forall i :: 0 <= i < |a| && a[i] != C.Undef ==> Same(a[i], b[i])
  {
    forall i | 0 <= i < |a| && a[i] != C.Undef
      ensures Same(a[i], b[i])
    {
      FieldMatched(names, a, b, i);
      hide Same, Matched, Fields;
      OnlyMatch(names, a[i], b, i);
    }
  }

  lemma FieldMatched(names: seq<string>, a: seq<C.Json>, b: seq<C.Json>, i: nat)
    requires |names| == |a| == |b| && i < |a| && a[i] != C.Undef
    requires Same(C.Obj(Fields(names, a)), C.Obj(Fields(names, b)))
    ensures Matched(Ascii(names[i]), a[i], Fields(names, b))
  {
    var x := C.Obj(Fields(names, a));
    assert x.entries[i] == C.Entry(Ascii(names[i]), a[i]);
    assert Matched(x.entries[i].key, x.entries[i].value, Fields(names, b));
  }

  lemma OnlyMatch(names: seq<string>, v: C.Json, b: seq<C.Json>, i: nat)
    requires Distinguished(names) && |names| == |b| && i < |b| && Matched(Ascii(names[i]), v, Fields(names, b))
    ensures Same(v, b[i])
  {
    var ys := Fields(names, b);
    var y :| Keeps(ys, y) && y.key == Ascii(names[i]) && Same(v, y.value);
    hide Same, Distinguished;
    var j :| 0 <= j < |ys| && ys[j] == y;
    if i < j { FieldsDiffer(names, i, j); }
    if j < i { FieldsDiffer(names, j, i); }
  }

  lemma FieldsWellFormed(names: seq<string>, values: seq<C.Json>)
    requires Distinguished(names) && |names| == |values|
    requires forall i :: 0 <= i < |values| ==> C.WellFormed(values[i])
    ensures C.WellFormed(C.Obj(Fields(names, values)))
  {
    var es := Fields(names, values);
    forall i, j | 0 <= i < j < |es|
      ensures es[i].key != es[j].key
    {
      FieldsDiffer(names, i, j);
    }
  }

  // ----- a snapshot's content as JSON -----

  function StringJson(s: Text): C.Json {
    C.Text(Utf16(s))
  }

  function LimitJson(n: Option<Count>): C.Json {
    if n.None? then C.Null else C.Int(n.value)
  }

  const CAPACITY_FIELDS: seq<string> := ["maxConnections", "maxRooms"]
  const ROOM_FIELDS: seq<string> := ["id", "type", "connections", "origin"]
  const CONTENT_FIELDS: seq<string> :=
    ["name", "processUid", "agentVersion", "protocolVersion", "endpointUrl", "labels", "capacity", "autoCreate",
     "roomTypes", "rooms", "status"]

  function CapacityJson(c: Capacity): C.Json {
    C.Obj(Fields(CAPACITY_FIELDS, [LimitJson(c.maxConnections), LimitJson(c.maxRooms)]))
  }

  function OriginJson(fleet: bool): C.Json {
    C.Text(Ascii(if fleet then "fleet" else "local"))
  }

  function RoomValues(r: SyncRoom): seq<C.Json> {
    [StringJson(r.id), StringJson(r.roomType), C.Int(r.connections), OriginJson(r.fleet)]
  }

  function RoomJson(r: SyncRoom): C.Json {
    C.Obj(Fields(ROOM_FIELDS, RoomValues(r)))
  }

  function LabelsJson(labels: seq<Label>): C.Json {
    C.Obj(seq(|labels|, i requires 0 <= i < |labels| => C.Entry(Utf16(labels[i].key), StringJson(labels[i].value))))
  }

  function TypeItems(types: seq<Text>): seq<C.Json> {
    seq(|types|, i requires 0 <= i < |types| => StringJson(types[i]))
  }

  function RoomItems(rooms: seq<SyncRoom>): seq<C.Json> {
    seq(|rooms|, i requires 0 <= i < |rooms| => RoomJson(rooms[i]))
  }

  function StatusJson(s: Status): C.Json {
    C.Text(Ascii(if s.Active? then "active" else "draining"))
  }

  function ContentValues(c: Content): seq<C.Json> {
    [StringJson(c.name), StringJson(c.processUid), StringJson(c.agentVersion), C.Int(c.protocolVersion),
     StringJson(c.endpointUrl), LabelsJson(c.labels), CapacityJson(c.capacity), C.Bool(c.autoCreate),
     C.Arr(TypeItems(c.roomTypes)), C.Arr(RoomItems(c.rooms)), StatusJson(c.status)]
  }

  function ContentJson(c: Content): C.Json {
    C.Obj(Fields(CONTENT_FIELDS, ContentValues(c)))
  }

  /** Labels are a record: one value per key. */
  ghost predicate LabelsDistinct(labels: seq<Label>) {
    forall i, j :: 0 <= i < j < |labels| ==> labels[i].key != labels[j].key
  }

  function HashOf(c: Content): Hash {
    Hash64(ContentJson(c))
  }

  // ----- equal hashes, equal content -----

  lemma CapacityDistinguished()
    ensures Distinguished(CAPACITY_FIELDS)
  {
  }

  lemma RoomDistinguished()
    ensures Distinguished(ROOM_FIELDS)
  {
  }

  lemma ContentDistinguished()
    ensures Distinguished(CONTENT_FIELDS)
  {
  }

  lemma SameStrings(s: Text, t: Text)
    requires Same(StringJson(s), StringJson(t))
    ensures s == t
  {
    Utf16Injective(s, t);
  }

  lemma SameCapacities(a: Capacity, b: Capacity)
    requires Same(CapacityJson(a), CapacityJson(b))
    ensures a == b
  {
    CapacityDistinguished();
    var x, y := [LimitJson(a.maxConnections), LimitJson(a.maxRooms)],
      [LimitJson(b.maxConnections), LimitJson(b.maxRooms)];
    SameFields(CAPACITY_FIELDS, x, y);
    assert Same(x[0], y[0]) && Same(x[1], y[1]);
  }

  lemma SameRoomField(a: SyncRoom, b: SyncRoom, i: nat)
    requires Same(RoomJson(a), RoomJson(b)) && i < 4
    ensures Same(RoomValues(a)[i], RoomValues(b)[i])
  {
    RoomDistinguished();
    assert RoomValues(a)[i] != C.Undef;
    hide Same;
    SameFields(ROOM_FIELDS, RoomValues(a), RoomValues(b));
  }

  lemma SameRooms(a: SyncRoom, b: SyncRoom)
    requires Same(RoomJson(a), RoomJson(b))
    ensures a == b
  {
    hide Same, RoomJson, StringJson, OriginJson;
    SameRoomField(a, b, 0);
    SameRoomField(a, b, 1);
    SameRoomField(a, b, 2);
    SameRoomField(a, b, 3);
    SameStrings(a.id, b.id);
    SameStrings(a.roomType, b.roomType);
    SameInts(a.connections, b.connections);
    SameOrigins(a.fleet, b.fleet);
  }

  lemma SameOrigins(a: bool, b: bool)
    requires Same(OriginJson(a), OriginJson(b))
    ensures a == b
  {
    OriginsDiffer();
  }

  lemma OriginsDiffer()
    ensures Ascii("fleet") != Ascii("local") && Ascii("active") != Ascii("draining")
  {
    assert Ascii("fleet")[0] == 'f' as int && Ascii("local")[0] == 'l' as int;
  }

  lemma SameInts(n: int, m: int)
    requires Same(C.Int(n), C.Int(m))
    ensures n == m
  {
  }

  lemma SameFlags(a: bool, b: bool)
    requires Same(C.Bool(a), C.Bool(b))
    ensures a == b
  {
  }

  lemma SameStatuses(a: Status, b: Status)
    requires Same(StatusJson(a), StatusJson(b))
    ensures a == b
  {
    OriginsDiffer();
  }

  lemma SameTypeItems(a: seq<Text>, b: seq<Text>)
    requires Same(C.Arr(TypeItems(a)), C.Arr(TypeItems(b)))
    ensures a == b
  {
    forall i | 0 <= i < |a|
      ensures |a| == |b| && a[i] == b[i]
    {
      assert Same(TypeItems(a)[i], TypeItems(b)[i]);
      SameStrings(a[i], b[i]);
    }
  }

  lemma SameRoomItems(a: seq<SyncRoom>, b: seq<SyncRoom>)
    requires Same(C.Arr(RoomItems(a)), C.Arr(RoomItems(b)))
    ensures a == b
  {
    forall i | 0 <= i < |a|
      ensures |a| == |b| && a[i] == b[i]
    {
      assert Same(RoomItems(a)[i], RoomItems(b)[i]);
      SameRooms(a[i], b[i]);
    }
  }

  lemma SameField(a: Content, b: Content, i: nat)
    requires Same(ContentJson(a), ContentJson(b)) && i < 11
    ensures Same(ContentValues(a)[i], ContentValues(b)[i])
  {
    ContentDistinguished();
    NoFieldUndefined(a, i);
    SameFields(CONTENT_FIELDS, ContentValues(a), ContentValues(b));
  }

  lemma NoFieldUndefined(a: Content, i: nat)
    requires i < 11
    ensures ContentValues(a)[i] != C.Undef
  {
  }

  lemma SameNames(a: Content, b: Content)
    requires Same(ContentJson(a), ContentJson(b))
    ensures a.name == b.name && a.processUid == b.processUid && a.agentVersion == b.agentVersion
    ensures a.endpointUrl == b.endpointUrl
  {
    hide Same, ContentJson, StringJson;
    SameField(a, b, 0);
    SameField(a, b, 1);
    SameField(a, b, 2);
    SameField(a, b, 4);
    SameStrings(a.name, b.name);
    SameStrings(a.processUid, b.processUid);
    SameStrings(a.agentVersion, b.agentVersion);
    SameStrings(a.endpointUrl, b.endpointUrl);
  }

  lemma SameLimits(a: Content, b: Content)
    requires Same(ContentJson(a), ContentJson(b))
    ensures a.protocolVersion == b.protocolVersion && a.capacity == b.capacity && a.autoCreate == b.autoCreate
    ensures Same(LabelsJson(a.labels), LabelsJson(b.labels))
  {
    hide Same, ContentJson, LabelsJson, CapacityJson;
    SameField(a, b, 3);
    SameField(a, b, 5);
    SameField(a, b, 6);
    SameField(a, b, 7);
    SameInts(a.protocolVersion, b.protocolVersion);
    SameCapacities(a.capacity, b.capacity);
    SameFlags(a.autoCreate, b.autoCreate);
  }

  lemma SameLists(a: Content, b: Content)
    requires Same(ContentJson(a), ContentJson(b))
    ensures a.roomTypes == b.roomTypes && a.rooms == b.rooms && a.status == b.status
  {
    hide Same, ContentJson, TypeItems, RoomItems, StatusJson;
    SameField(a, b, 8);
    SameField(a, b, 9);
    SameField(a, b, 10);
    SameTypeItems(a.roomTypes, b.roomTypes);
    SameRoomItems(a.rooms, b.rooms);
    SameStatuses(a.status, b.status);
  }

  /** Content that encodes to the same data differs in the order of its labels at most. */
  lemma SameContents(a: Content, b: Content)
    requires Same(ContentJson(a), ContentJson(b))
    ensures a.(labels := b.labels) == b && Same(LabelsJson(a.labels), LabelsJson(b.labels))
  {
    SameNames(a, b);
    SameLimits(a, b);
    SameLists(a, b);
  }

  lemma LabelsWellFormed(labels: seq<Label>)
    requires LabelsDistinct(labels)
    ensures C.WellFormed(LabelsJson(labels))
  {
    forall i, j | 0 <= i < j < |labels|
      ensures Utf16(labels[i].key) != Utf16(labels[j].key)
    {
      if Utf16(labels[i].key) == Utf16(labels[j].key) {
        Utf16Injective(labels[i].key, labels[j].key);
      }
    }
  }

  lemma RoomWellFormed(r: SyncRoom)
    ensures C.WellFormed(RoomJson(r))
  {
    RoomDistinguished();
    FieldsWellFormed(ROOM_FIELDS, RoomValues(r));
  }

  lemma ContentWellFormed(c: Content)
    requires LabelsDistinct(c.labels)
    ensures C.WellFormed(ContentJson(c))
  {
    ContentDistinguished();
    CapacityDistinguished();
    LabelsWellFormed(c.labels);
    FieldsWellFormed(CAPACITY_FIELDS, [LimitJson(c.capacity.maxConnections), LimitJson(c.capacity.maxRooms)]);
    forall i | 0 <= i < |c.rooms|
      ensures C.WellFormed(RoomItems(c.rooms)[i])
    {
      RoomWellFormed(c.rooms[i]);
    }
    FieldsWellFormed(CONTENT_FIELDS, ContentValues(c));
  }

  /** Two snapshots of one agent, whose labels never change, have the same hash exactly when they are equal. */
  lemma HashDecides(a: Content, b: Content)
    requires LabelsDistinct(a.labels) && a.labels == b.labels
    ensures HashOf(a) == HashOf(b) <==> a == b
  {
    ContentWellFormed(a);
    ContentWellFormed(b);
    CanonicalTextDecides(ContentJson(a), ContentJson(b));
    if HashOf(a) == HashOf(b) {
      SameContents(a, b);
    }
  }
}
