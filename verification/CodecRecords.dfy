/** Which trees decode as a record: unknown, missing and defaulted fields. */
module CodecRecords {
  import opened Wrappers
  import opened Codec
  import opened CodecLaws

  /** The tree has the fields of the record: every member but the tag is a declared field and decodes
      to the record's, and a declared field that is not there has its default, which only a lenient
      type allows. */
  predicate Reads(t: Schema, j: Json, name: string, fields: map<string, Value>)
    requires name in t.records && j.JObject?
  {
    var r := t.records[name];
    && fields.Keys == r.hints.Keys
    && (forall f :: f in j.members && f != TAG ==> f in r.hints)
    && forall f :: f in r.hints ==>
         if f in j.members && f != TAG then Decode(t, j.members[f], r.hints[f]) == Some(fields[f])
         else r.lenient && f in r.defaults && fields[f] == r.defaults[f]
  }

  /** The constructor takes the fields. */
  predicate Accepts(t: Schema, name: string, fields: map<string, Value>)
    requires name in t.records
  {
    Typed(t, Record(name, fields), RecordOf(name)) && t.records[name].valid(fields)
  }

  lemma ReadsOnce(t: Schema, j: Json, name: string, a: map<string, Value>, b: map<string, Value>)
    requires name in t.records && j.JObject? && Reads(t, j, name, a) && Reads(t, j, name, b)
    ensures a == b
  {
    hide Decode;
    forall f | f in a ensures a[f] == b[f] { assert f in t.records[name].hints; }
  }

  /** A tree decodes as a record exactly when it carries the record's tag, has its fields in that
      sense, and the constructor takes them. */
  lemma DecodesIffReads(t: Schema, j: Json, name: string, v: Value)
    requires name in t.records
    ensures Decode(t, j, RecordOf(name)) == Some(v) <==>
      && v.Record? && v.name == name
      && j.JObject? && TAG in j.members && j.members[TAG] == JStr(name)
      && Reads(t, j, name, v.fields) && Accepts(t, name, v.fields)
  {
    hide Typed;
    if j.JObject? && TAG in j.members && j.members[TAG] == JStr(name) {
      var r, supplied := t.records[name], Supplied(j.members);
      if v.Record? && Reads(t, j, name, v.fields) {
        ReadsDecodes(t, j, name, v.fields);
      }
      if Decode(t, j, RecordOf(name)) == Some(v) {
        DecodedReads(t, j, name, v);
      }
    }
  }

  lemma ReadsDecodes(t: Schema, j: Json, name: string, fields: map<string, Value>)
    requires name in t.records && j.JObject? && TAG in j.members && j.members[TAG] == JStr(name)
    requires Reads(t, j, name, fields)
    ensures Decode(t, j, RecordOf(name)) == if Accepts(t, name, fields) then Some(Record(name, fields)) else None
  {
    hide Typed;
    var r, supplied := t.records[name], Supplied(j.members);
    assert FieldsFit(r, supplied);
    var decoded := map f | f in supplied :: Decode(t, j.members[f], r.hints[f]).value;
    assert decoded.Keys == supplied;
    forall f | f in r.hints ensures Filled(r, decoded)[f] == fields[f] { }
    assert Filled(r, decoded) == fields;
  }

  lemma DecodedReads(t: Schema, j: Json, name: string, v: Value)
    requires name in t.records && Decode(t, j, RecordOf(name)) == Some(v)
    ensures j.JObject? && v.Record? && v.name == name && Reads(t, j, name, v.fields) && Accepts(t, name, v.fields)
  {
    hide Typed;
    var r, supplied := t.records[name], Supplied(j.members);
    var decoded := map f | f in supplied :: Decode(t, j.members[f], r.hints[f]).value;
    assert decoded.Keys == supplied;
    assert v == Record(name, Filled(r, decoded));
  }

  /** So an unknown field is never accepted, a missing one only of a lenient type with a default. */
  lemma FieldsRefused(t: Schema, j: Json, name: string, f: string)
    requires name in t.records && j.JObject? && f != TAG
    requires (f in j.members && f !in t.records[name].hints)
          || (f !in j.members && f in t.records[name].hints
              && (!t.records[name].lenient || f !in t.records[name].defaults))
    ensures Decode(t, j, RecordOf(name)) == None
  {
    hide Decode, Accepts;
    if Decode(t, j, RecordOf(name)).Some? { DecodesIffReads(t, j, name, Decode(t, j, RecordOf(name)).value); }
  }

  /** A tree without some of its members. */
  function Without(j: Json, dropped: set<string>): Json
    requires j.JObject?
  {
    JObject(map f | f in j.members && f !in dropped :: j.members[f])
  }

  /** Fields with some replaced by their defaults. */
  function Defaulted(r: RecordType, fields: map<string, Value>, dropped: set<string>): map<string, Value>
    requires dropped <= r.defaults.Keys
  {
    map f | f in fields :: if f in dropped then r.defaults[f] else fields[f]
  }

  /** An older tree of a lenient type, which lacks some fields with defaults, is read as the record
      with the defaults in their places, if the constructor takes it so, and refused otherwise. */
  lemma OlderRecordIsRead(t: Schema, v: Value, dropped: set<string>)
    requires WellFormed(t) && v.Record? && Built(t, v) && Built(t, Widen(t, v, RecordOf(v.name)))
    requires var r := t.records[v.name]; r.lenient && dropped <= r.defaults.Keys && dropped <= r.hints.Keys
    ensures Widen(t, v, RecordOf(v.name)).Record?
    ensures var fields := Defaulted(t.records[v.name], Widen(t, v, RecordOf(v.name)).fields, dropped);
      Decode(t, Without(Encode(v), dropped), RecordOf(v.name)) ==
        if Accepts(t, v.name, fields) then Some(Record(v.name, fields)) else None
  {
    var r, j := t.records[v.name], Without(Encode(v), dropped);
    WidenedRecord(t, v.name, v.fields);
    EncodedRecord(t, v.name, v.fields);
    assert v == Record(v.name, v.fields);
    var w := Widen(t, v, RecordOf(v.name));
    var fields := Defaulted(r, w.fields, dropped);
    forall f | f in v.fields ensures Decode(t, Encode(v.fields[f]), r.hints[f]) == Some(w.fields[f]) {
      RoundTrip(t, v.fields[f], r.hints[f]);
    }
    hide Decode, Encode, Typed, Widen, Built;
    assert Reads(t, j, v.name, fields);
    ReadsDecodes(t, j, v.name, fields);
  }

  /** A type that is not lenient refuses a tree with any field missing. */
  lemma StrictRecordIsWhole(t: Schema, v: Value, dropped: set<string>)
    requires WellFormed(t) && v.Record? && Built(t, v) && !t.records[v.name].lenient
    requires exists f :: f in dropped && f in t.records[v.name].hints
    ensures Encode(v).JObject? && Decode(t, Without(Encode(v), dropped), RecordOf(v.name)) == None
  {
    var f :| f in dropped && f in t.records[v.name].hints;
    FieldsRefused(t, Without(Encode(v), dropped), v.name, f);
  }

  // ---- Literals -------------------------------------------------------------------------------

  predicate OneKind(choices: seq<Value>) {
    || (forall i :: 0 <= i < |choices| ==> choices[i].Str?)
    || (forall i :: 0 <= i < |choices| ==> choices[i].Int?)
    || (forall i :: 0 <= i < |choices| ==> choices[i].Bool?)
  }

  /** Among choices of one kind a literal accepts exactly those; a truth value never passes for a
      number, nor a number for a truth value. */
  lemma LiteralsOfOneKind(choices: seq<Value>, v: Value)
    requires OneKind(choices) && Plain(v)
    ensures InLiteral(choices, v) <==> v in choices
  {
    if v in choices {
      var i :| 0 <= i < |choices| && choices[i] == v;
      assert Equal(v, choices[i]) && SameType(v, choices[i]);
    }
  }
}
