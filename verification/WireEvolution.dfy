/**
 * How two readings of the same bytes relate: under a schema and one that appends to it, and of a
 * concatenation and its two halves.  Both hold of every byte string, not only of encoded messages.
 */
module WireEvolution {
  import opened Prelude
  import opened Varint
  import opened Wire
  import opened WireRoundTrip
  import opened WireNormal

  // ----- append-only evolution -----

  predicate HasKey(fields: seq<Field>, key: string) {
    exists i :: 0 <= i < |fields| && fields[i].key == key
  }

  /** The type of the field with this key. */
  function TypeOfKey(fields: seq<Field>, key: string): (ty: FieldType)
    requires HasKey(fields, key)
    ensures exists i :: 0 <= i < |fields| && fields[i].key == key && fields[i].ty == ty
  {
    if fields[0].key == key then fields[0].ty else
      assert HasKey(fields[1..], key) by {
        var i :| 0 <= i < |fields| && fields[i].key == key;
        assert fields[1..][i - 1].key == key;
      }
      TypeOfKey(fields[1..], key)
  }

  lemma TypeOfKeyAt(fields: seq<Field>, i: nat)
    requires i < |fields| && DistinctKeys(fields)
    ensures HasKey(fields, fields[i].key) && TypeOfKey(fields, fields[i].key) == fields[i].ty
  {
  }

  /** The part of a message that schema `s` describes, at every nesting level. */
  ghost function Project(s: Schema, t: string, m: Message): Message
    decreases Msg(m), 0
  {
    if t !in s.types then map[] else
      map k | k in m && HasKey(s.types[t], k) :: ProjectValue(s, TypeOfKey(s.types[t], k), m[k])
  }

  ghost function ProjectValue(s: Schema, ty: FieldType, v: Value): Value
    decreases v, 1
  {
    if !ty.TMessage? then v
    else if v.Msg? then Msg(Project(s, ty.name, v.fields))
    else if v.List? then List(seq(|v.items|, i requires 0 <= i < |v.items| => ProjectValue(s, ty, v.items[i])))
    else v
  }

  /** What an old reader keeps of a message only depends on the fields it knows. */
  lemma ProjectPut(s: Schema, d: Schema, t: string, acc: Message, i: nat, v: Value)
    requires Extends(s, d) && AllDistinctKeys(d) && t in s.types && i < |d.types[t]|
    ensures i < |s.types[t]| ==>
      Project(s, t, Put(acc, d.types[t][i], v))
        == Put(Project(s, t, acc), s.types[t][i], ProjectValue(s, s.types[t][i].ty, v))
    ensures i >= |s.types[t]| ==> Project(s, t, Put(acc, d.types[t][i], v)) == Project(s, t, acc)
  {
    var old_, new_, f := s.types[t], d.types[t], d.types[t][i];
    assert DistinctKeys(new_) && (forall j :: 0 <= j < |old_| ==> old_[j] == new_[j]);
    assert DistinctKeys(old_);
    if i < |old_| {
      TypeOfKeyAt(old_, i);
      ProjectPutKnown(s, t, acc, i, v);
    } else {
      assert !HasKey(old_, f.key);
      ProjectPutUnknown(s, t, acc, f, v);
    }
  }

  lemma ProjectAt(s: Schema, t: string, m: Message, k: string)
    requires t in s.types
    ensures k in Project(s, t, m) <==> k in m && HasKey(s.types[t], k)
    ensures k in Project(s, t, m) ==> Project(s, t, m)[k] == ProjectValue(s, TypeOfKey(s.types[t], k), m[k])
  {
  }

  lemma SameMessage(a: Message, b: Message)
    requires forall k :: k in a <==> k in b
    requires forall k :: k in a ==> a[k] == b[k]
    ensures a == b
  {
  }

  lemma ProjectPutUnknown(s: Schema, t: string, acc: Message, f: Field, v: Value)
    requires t in s.types && !HasKey(s.types[t], f.key)
    ensures Project(s, t, Put(acc, f, v)) == Project(s, t, acc)
  {
    hide Project, ProjectValue, HasKey, TypeOfKey;
    var left, right := Project(s, t, Put(acc, f, v)), Project(s, t, acc);
    forall k
      ensures k in left <==> k in right
      ensures k in left ==> left[k] == right[k]
    {
      ProjectAt(s, t, Put(acc, f, v), k);
      ProjectAt(s, t, acc, k);
    }
    SameMessage(left, right);
  }

  lemma ProjectPutKnown(s: Schema, t: string, acc: Message, i: nat, v: Value)
    requires t in s.types && i < |s.types[t]|
    requires HasKey(s.types[t], s.types[t][i].key) && TypeOfKey(s.types[t], s.types[t][i].key) == s.types[t][i].ty
    ensures Project(s, t, Put(acc, s.types[t][i], v))
         == Put(Project(s, t, acc), s.types[t][i], ProjectValue(s, s.types[t][i].ty, v))
  {
    hide Project, ProjectValue, HasKey, TypeOfKey;
    var f := s.types[t][i];
    var left := Project(s, t, Put(acc, f, v));
    var right := Put(Project(s, t, acc), f, ProjectValue(s, f.ty, v));
    forall k
      ensures k in left <==> k in right
      ensures k in left ==> left[k] == right[k]
    {
      ProjectAt(s, t, Put(acc, f, v), k);
      ProjectAt(s, t, acc, k);
      if k == f.key && f.rule == Repeated {
        ProjectList(s, f.ty, ListItems(acc, k), v);
        ProjectListItems(s, t, acc, k);
      }
    }
    SameMessage(left, right);
  }

  lemma ProjectListItems(s: Schema, t: string, acc: Message, k: string)
    requires t in s.types && HasKey(s.types[t], k)
    ensures ProjectValue(s, TypeOfKey(s.types[t], k), List(ListItems(acc, k))) == List(ListItems(Project(s, t, acc), k))
  {
    if k in acc && acc[k].List? {
      assert Project(s, t, acc)[k] == ProjectValue(s, TypeOfKey(s.types[t], k), acc[k]);
    } else {
      assert ListItems(acc, k) == [] && ListItems(Project(s, t, acc), k) == [];
    }
  }

  lemma ProjectList(s: Schema, ty: FieldType, before: seq<Value>, v: Value)
    ensures ProjectValue(s, ty, List(before)).List?
    ensures ProjectValue(s, ty, List(before + [v]))
         == List(ProjectValue(s, ty, List(before)).items + [ProjectValue(s, ty, v)])
  {
    assert ProjectValue(s, ty, List(before + [v])).items
        == ProjectValue(s, ty, List(before)).items + [ProjectValue(s, ty, v)];
  }

  /**
   * Whatever bytes a newer schema decodes, the older schema decodes to the projection of the same
   * message.
   */
  lemma {:induction false} OldReaderProjects(s: Schema, d: Schema, t: string, b: seq<Byte>)
    requires Extends(s, d) && AllDistinctKeys(d) && AllTypesDefined(s) && t in s.types
    requires ReadMessage(d, t, b).Ok?
    ensures ReadMessage(s, t, b) == Ok(Project(s, t, ReadMessage(d, t, b).value))
    decreases |b|, 2
  {
    OldReaderProjectsFields(s, d, t, b, map[]);
    assert Project(s, t, map[]) == map[];
  }

  lemma {:induction false} OldReaderProjectsFields(s: Schema, d: Schema, t: string, b: seq<Byte>, acc: Message)
    requires Extends(s, d) && AllDistinctKeys(d) && AllTypesDefined(s) && t in s.types
    requires ReadFields(d, d.types[t], b, acc).Ok?
    ensures ReadFields(s, s.types[t], b, Project(s, t, acc))
         == Ok(Project(s, t, ReadFields(d, d.types[t], b, acc).value))
    decreases |b|, 1
  {
    hide ReadFields, NextField, ReadValue, Put, Project, ProjectValue;
    ReadNothing(d, d.types[t], acc);
    ReadNothing(s, s.types[t], Project(s, t, acc));
    if b != [] {
      ReadGoesOn(d, d.types[t], b, acc);
      var (tag, payload, rest) := NextField(b).value;
      ReadStep(d, d.types[t], b, acc, tag, payload, rest);
      ReadStep(s, s.types[t], b, Project(s, t, acc), tag, payload, rest);
      if 1 <= tag <= |d.types[t]| {
        var v := ReadValue(d, d.types[t][tag - 1].ty, payload).value;
        var acc' := Put(acc, d.types[t][tag - 1], v);
        ProjectPut(s, d, t, acc, tag - 1, v);
        if tag <= |s.types[t]| {
          assert s.types[t][tag - 1] == d.types[t][tag - 1];
          OldReaderProjectsValue(s, d, s.types[t][tag - 1].ty, payload);
        }
        OldReaderProjectsFields(s, d, t, rest, acc');
      } else {
        OldReaderProjectsFields(s, d, t, rest, acc);
      }
    }
  }

  lemma {:induction false} OldReaderProjectsValue(s: Schema, d: Schema, ty: FieldType, p: Payload)
    requires Extends(s, d) && AllDistinctKeys(d) && AllTypesDefined(s)
    requires ty.TMessage? ==> ty.name in s.types
    requires ReadValue(d, ty, p).Ok?
    ensures ReadValue(s, ty, p) == Ok(ProjectValue(s, ty, ReadValue(d, ty, p).value))
    decreases if p.Chunk? then |p.bytes| else 0, 3
  {
    if ty.TMessage? && p.Chunk? {
      OldReaderProjects(s, d, ty.name, p.bytes);
    }
  }

  /**
   * Append-only evolution in both directions: an old reader gets the projection of a new writer's
   * message, and a new reader gets from an old writer exactly what an old reader gets.
   */
  lemma EvolutionPreservesMeaning(s: Schema, d: Schema, t: string, newer: Message, older: Message)
    requires WellFormed(s) && WellFormed(d) && Extends(s, d) && AllDistinctKeys(d) && AllTypesDefined(s)
    requires t in s.types && Kinded(d, t, newer) && Kinded(s, t, older)
    requires WriteMessage(d, t, newer).Ok? && WriteMessage(s, t, older).Ok?
    ensures ReadMessage(s, t, WriteMessage(d, t, newer).value) == Ok(Project(s, t, Normal(d, t, newer)))
    ensures ReadMessage(d, t, WriteMessage(s, t, older).value) == ReadMessage(s, t, WriteMessage(s, t, older).value)
  {
    assert Extends(d, d) && Extends(s, s);
    RoundTrip(d, d, t, newer);
    OldReaderProjects(s, d, t, WriteMessage(d, t, newer).value);
    assert AllDistinctKeys(s) by {
      forall u | u in s.types
        ensures DistinctKeys(s.types[u])
      {
        assert DistinctKeys(d.types[u]);
        assert forall j :: 0 <= j < |s.types[u]| ==> s.types[u][j] == d.types[u][j];
      }
    }
    RoundTrip(s, d, t, older);
    RoundTrip(s, s, t, older);
  }

  // ----- concatenation -----

  predicate IsRepeatedKey(fields: seq<Field>, key: string) {
    exists i :: 0 <= i < |fields| && fields[i].key == key && fields[i].rule == Repeated
  }

  function ListItems(m: Message, key: string): seq<Value> {
    if key in m && m[key].List? then m[key].items else []
  }

  /** Field-wise merge: repeated fields append, every other field takes the later value. */
  ghost function Merge(fields: seq<Field>, a: Message, b: Message): Message {
    map k | k in a.Keys + b.Keys ::
      if k !in b then a[k]
      else if IsRepeatedKey(fields, k) && b[k].List? then List(ListItems(a, k) + b[k].items)
      else b[k]
  }

  /** The shape every accumulator has: a repeated key holds a list. */
  ghost predicate Collects(fields: seq<Field>, m: Message) {
    forall k :: k in m && IsRepeatedKey(fields, k) ==> m[k].List?
  }

  lemma NextFieldAppend(b: seq<Byte>, more: seq<Byte>)
    requires b != [] && NextField(b).Ok?
    ensures var (tag, p, rest) := NextField(b).value; NextField(b + more) == Ok((tag, p, rest + more))
  {
    ReadTailAppend(b, 0, 0, more);
    var (key, b1) := ReadVarint(b).value;
    ReadTailAppend(b1, 0, 0, more);
    var (len, b2) := ReadVarint(b1).value;
    if len <= |b2| {
      assert (b2 + more)[..len] == b2[..len] && (b2 + more)[len..] == b2[len..] + more;
    }
  }

  lemma {:induction false} ReadTailAppend(b: seq<Byte>, count: nat, acc: nat, more: seq<Byte>)
    ensures ReadTail(b, count, acc).Ok? ==>
      var (n, rest) := ReadTail(b, count, acc).value; ReadTail(b + more, count, acc) == Ok((n, rest + more))
    decreases |b|
  {
    if b != [] && count < 8 {
      assert (b + more)[1..] == b[1..] + more;
      ReadTailAppend(b[1..], count + 1, AddGroup(acc, b[0], count), more);
    }
  }

  lemma {:induction false} ReadFieldsAppend(s: Schema, fields: seq<Field>, b: seq<Byte>, more: seq<Byte>, acc: Message)
    requires ReadFields(s, fields, b, acc).Ok?
    ensures ReadFields(s, fields, b + more, acc) == ReadFields(s, fields, more, ReadFields(s, fields, b, acc).value)
    decreases |b|
  {
    hide ReadFields, NextField, ReadValue, Put;
    if b == [] {
      ReadNothing(s, fields, acc);
      assert b + more == more;
    } else {
      ReadGoesOn(s, fields, b, acc);
      NextFieldAppend(b, more);
      var (tag, p, rest) := NextField(b).value;
      ReadStep(s, fields, b, acc, tag, p, rest);
      ReadStep(s, fields, b + more, acc, tag, p, rest + more);
      if 1 <= tag <= |fields| {
        var v := ReadValue(s, fields[tag - 1].ty, p).value;
        ReadFieldsAppend(s, fields, rest, more, Put(acc, fields[tag - 1], v));
      } else {
        ReadFieldsAppend(s, fields, rest, more, acc);
      }
    }
  }

  lemma RepeatedKeyAt(fields: seq<Field>, i: nat)
    requires i < |fields| && DistinctKeys(fields)
    ensures IsRepeatedKey(fields, fields[i].key) <==> fields[i].rule == Repeated
  {
  }

  lemma PutMerges(fields: seq<Field>, f: Field, a: Message, acc: Message, v: Value)
    requires IsRepeatedKey(fields, f.key) <==> f.rule == Repeated
    requires Collects(fields, a) && Collects(fields, acc)
    ensures Put(Merge(fields, a, acc), f, v) == Merge(fields, a, Put(acc, f, v))
  {
    var left, right := Put(Merge(fields, a, acc), f, v), Merge(fields, a, Put(acc, f, v));
    assert left.Keys == right.Keys;
    forall k | k in left
      ensures left[k] == right[k]
    {
      if k == f.key && f.rule == Repeated {
        assert ListItems(Merge(fields, a, acc), k) == ListItems(a, k) + ListItems(acc, k);
        assert ListItems(a, k) + (ListItems(acc, k) + [v]) == ListItems(a, k) + ListItems(acc, k) + [v];
      }
    }
  }

  lemma PutCollects(fields: seq<Field>, f: Field, acc: Message, v: Value)
    requires IsRepeatedKey(fields, f.key) <==> f.rule == Repeated
    requires Collects(fields, acc)
    ensures Collects(fields, Put(acc, f, v))
  {
  }

  /** Reading on top of `a` is reading from scratch and merging into `a`. */
  lemma {:induction false} ReadFieldsMerges(s: Schema, fields: seq<Field>, b: seq<Byte>, a: Message, acc: Message)
    requires DistinctKeys(fields) && Collects(fields, a) && Collects(fields, acc)
    ensures ReadFields(s, fields, b, acc).Ok? ==>
      ReadFields(s, fields, b, Merge(fields, a, acc)) == Ok(Merge(fields, a, ReadFields(s, fields, b, acc).value))
    ensures ReadFields(s, fields, b, acc).Ok? ==> Collects(fields, ReadFields(s, fields, b, acc).value)
    decreases |b|
  {
    hide ReadFields, NextField, ReadValue, Put, Merge, Collects, IsRepeatedKey;
    ReadNothing(s, fields, acc);
    ReadNothing(s, fields, Merge(fields, a, acc));
    if b != [] && ReadFields(s, fields, b, acc).Ok? {
      ReadGoesOn(s, fields, b, acc);
      var (tag, p, rest) := NextField(b).value;
      ReadStep(s, fields, b, acc, tag, p, rest);
      ReadStep(s, fields, b, Merge(fields, a, acc), tag, p, rest);
      if 1 <= tag <= |fields| {
        var v := ReadValue(s, fields[tag - 1].ty, p).value;
        RepeatedKeyAt(fields, tag - 1);
        PutMerges(fields, fields[tag - 1], a, acc, v);
        PutCollects(fields, fields[tag - 1], acc, v);
        ReadFieldsMerges(s, fields, rest, a, Put(acc, fields[tag - 1], v));
      } else {
        ReadFieldsMerges(s, fields, rest, a, acc);
      }
    }
  }

  /** Decoding two valid bodies one after the other is the field-wise merge of what they decode to. */
  lemma ConcatenationMerges(s: Schema, t: string, b1: seq<Byte>, b2: seq<Byte>)
    requires t in s.types && DistinctKeys(s.types[t])
    requires ReadMessage(s, t, b1).Ok? && ReadMessage(s, t, b2).Ok?
    ensures ReadMessage(s, t, b1 + b2)
         == Ok(Merge(s.types[t], ReadMessage(s, t, b1).value, ReadMessage(s, t, b2).value))
  {
    var fields := s.types[t];
    var m1 := ReadMessage(s, t, b1).value;
    ReadFieldsAppend(s, fields, b1, b2, map[]);
    ReadFieldsMerges(s, fields, b1, map[], map[]);
    assert Merge(fields, map[], map[]) == map[];
    ReadFieldsMerges(s, fields, b2, m1, map[]);
    assert Merge(fields, m1, map[]) == m1;
  }
}
