/** The laws of the codec: round trips, agreement with the typing check, stable encodings. */
module CodecLaws {
  import opened Wrappers
  import opened Codec

  // ---- Telling alternatives apart -------------------------------------------------------------

  /** What a JSON tree shows at its root. */
  datatype Kind =
    | NullKind | StrKind | BoolKind | IntKind | FloatKind | ArrayKind | UntaggedKind
    | RecordKind(name: string)

  function KindOf(j: Json): Kind {
    match j
    case JNull => NullKind
    case JStr(_) => StrKind
    case JBool(_) => BoolKind
    case JInt(_) => IntKind
    case JFloat(_) | JNonFinite => FloatKind
    case JArray(_) => ArrayKind
    case JObject(members) =>
      if TAG in members && members[TAG].JStr? then RecordKind(members[TAG].text) else UntaggedKind
  }

  /** The kinds a hint accepts. */
  function Kinds(h: Hint): set<Kind>
    decreases h
  {
    match h
    case UnionOf(hs) => set i, k | 0 <= i < |hs| && k in Kinds(hs[i]) :: k
    case LiteralOf(choices) => set i | 0 <= i < |choices| :: KindOf(Encode(choices[i]))
    case NoneHint => {NullKind}
    case StrHint => {StrKind}
    case IntHint => {IntKind}
    case FloatHint => {IntKind, FloatKind}
    case BoolHint => {BoolKind}
    case ManyOf(_) | TupleOf(_) => {ArrayKind}
    case RecordOf(name) => {RecordKind(name)}
  }

  predicate Primitive(h: Hint) {
    h.NoneHint? || h.StrHint? || h.IntHint? || h.FloatHint? || h.BoolHint?
  }

  /** Two alternatives that are told apart by record tag or primitive kind, or overlap only as
      primitives do. */
  predicate Apart(a: Hint, b: Hint) {
    Kinds(a) !! Kinds(b) || (Primitive(a) && Primitive(b))
  }

  /** Literals are scalars. */
  predicate PlainLiterals(h: Hint)
    decreases h
  {
    match h
    case UnionOf(hs) => forall i :: 0 <= i < |hs| ==> PlainLiterals(hs[i])
    case LiteralOf(choices) => forall i :: 0 <= i < |choices| ==> Plain(choices[i])
    case ManyOf(item) => PlainLiterals(item)
    case TupleOf(parts) => forall i :: 0 <= i < |parts| ==> PlainLiterals(parts[i])
    case _ => true
  }

  /** The alternatives of every union are apart from each other. */
  predicate Settled(h: Hint)
    decreases h
  {
    match h
    case UnionOf(hs) =>
      && (forall i :: 0 <= i < |hs| ==> Settled(hs[i]))
      && (forall i, k :: 0 <= i < k < |hs| ==> Apart(hs[i], hs[k]))
    case ManyOf(item) => Settled(item)
    case TupleOf(parts) => forall i :: 0 <= i < |parts| ==> Settled(parts[i])
    case _ => true
  }

  /** No record has a field of the tag's name. */
  predicate Untagged(t: Schema) {
    forall n :: n in t.records ==> TAG !in t.records[n].hints
  }

  /** What every schema of Python classes satisfies. */
  predicate WellFormed(t: Schema) {
    && Untagged(t)
    && forall n :: n in t.records ==> forall f :: f in t.records[n].hints ==> PlainLiterals(t.records[n].hints[f])
  }

  predicate SettledSchema(t: Schema) {
    WellFormed(t) && forall n :: n in t.records ==> forall f :: f in t.records[n].hints ==>
      Settled(t.records[n].hints[f])
  }

  /** The alternative that a union decodes with: the first that decodes at all. */
  lemma {:induction false} Decoding(t: Schema, j: Json, h: Hint, k: nat) returns (i: nat)
    requires h.UnionOf? && k <= |h.alternatives| && DecodeFirst(t, j, h, k).Some?
    ensures k <= i < |h.alternatives| && Decode(t, j, h.alternatives[i]) == DecodeFirst(t, j, h, k)
    ensures forall n :: k <= n < i ==> Decode(t, j, h.alternatives[n]).None?
    decreases |h.alternatives| - k
  {
    if Decode(t, j, h.alternatives[k]).Some? { i := k; } else { i := Decoding(t, j, h, k + 1); }
  }

  lemma {:induction false} DecodesAt(t: Schema, j: Json, h: Hint, k: nat, i: nat)
    requires h.UnionOf? && k <= i < |h.alternatives| && Decode(t, j, h.alternatives[i]).Some?
    requires forall n :: k <= n < i ==> Decode(t, j, h.alternatives[n]).None?
    ensures DecodeFirst(t, j, h, k) == Decode(t, j, h.alternatives[i])
    decreases i - k
  {
    if k < i { DecodesAt(t, j, h, k + 1, i); }
  }

  lemma {:induction false} TypedKind(t: Schema, v: Value, h: Hint)
    requires PlainLiterals(h) && Typed(t, v, h)
    ensures KindOf(Encode(v)) in Kinds(h)
    decreases h
  {
    match h
    case UnionOf(hs) =>
      var i :| 0 <= i < |hs| && Typed(t, v, hs[i]);
      TypedKind(t, v, hs[i]);
    case LiteralOf(choices) =>
      var i :| 0 <= i < |choices| && SameType(v, choices[i]);
      assert Plain(choices[i]) && KindOf(Encode(choices[i])) == KindOf(Encode(v));
    case _ =>
  }

  /** Two alternatives of one value that are apart are both primitive; so where no two primitives
      overlap a value has one alternative at most, and the first match is the right one. */
  lemma SharedAlternatives(t: Schema, v: Value, h: Hint, i: nat, k: nat)
    requires h.UnionOf? && PlainLiterals(h) && Settled(h)
    requires i < |h.alternatives| && k < |h.alternatives| && i != k
    requires Typed(t, v, h.alternatives[i]) && Typed(t, v, h.alternatives[k])
    ensures Primitive(h.alternatives[i]) && Primitive(h.alternatives[k])
  {
    var a, b := h.alternatives[i], h.alternatives[k];
    TypedKind(t, v, a);
    TypedKind(t, v, b);
    assert Apart(a, b) || Apart(b, a);
  }

  // ---- Decoding what was encoded --------------------------------------------------------------

  /** No non-finite float outside a record. */
  predicate FiniteOutside(v: Value)
    decreases v
  {
    match v
    case NonFinite => false
    case Tuple(items) => forall k :: 0 <= k < |items| ==> FiniteOutside(items[k])
    case _ => true
  }

  lemma {:induction false} TypedIsFinite(t: Schema, v: Value, h: Hint)
    requires PlainLiterals(h) && Typed(t, v, h)
    ensures FiniteOutside(v)
    decreases v, h
  {
    match h
    case UnionOf(hs) =>
      var i :| 0 <= i < |hs| && Typed(t, v, hs[i]);
      TypedIsFinite(t, v, hs[i]);
    case LiteralOf(choices) =>
      var i :| 0 <= i < |choices| && SameType(v, choices[i]);
      assert Plain(choices[i]);
    case ManyOf(item) =>
      forall k | 0 <= k < |v.items| ensures FiniteOutside(v.items[k]) { TypedIsFinite(t, v.items[k], item); }
    case TupleOf(parts) =>
      forall k | 0 <= k < |v.items| ensures FiniteOutside(v.items[k]) { TypedIsFinite(t, v.items[k], parts[k]); }
    case _ =>
  }

  /** A hint decodes the encoding of a constructed value only if the value has that type. */
  lemma {:induction false} EncodedIsTyped(t: Schema, v: Value, h: Hint)
    requires Built(t, v) && FiniteOutside(v) && Decode(t, Encode(v), h).Some?
    ensures Typed(t, v, h)
    decreases v, h
  {
    match h
    case UnionOf(hs) =>
      var i := Decoding(t, Encode(v), h, 0);
      EncodedIsTyped(t, v, hs[i]);
    case ManyOf(item) =>
      forall k | 0 <= k < |v.items| ensures Typed(t, v.items[k], item) {
        assert Encode(v).items[k] == Encode(v.items[k]);
        EncodedIsTyped(t, v.items[k], item);
      }
    case TupleOf(parts) =>
      forall k | 0 <= k < |v.items| ensures Typed(t, v.items[k], parts[k]) {
        assert Encode(v).items[k] == Encode(v.items[k]);
        EncodedIsTyped(t, v.items[k], parts[k]);
      }
    case RecordOf(name) => assert v.Record? && v.name == name;
    case _ =>
  }

  // ---- Widening -------------------------------------------------------------------------------

  /** Widening keeps a value's type. */
  lemma {:induction false} WidenTyped(t: Schema, v: Value, h: Hint)
    requires Typed(t, v, h)
    ensures Typed(t, Widen(t, v, h), h)
    decreases v, h
  {
    match h
    case UnionOf(hs) =>
      var i := FirstTyped(t, v, hs, 0);
      WidenTyped(t, v, hs[i]);
    case ManyOf(item) =>
      forall k | 0 <= k < |v.items| ensures Typed(t, Widen(t, v.items[k], item), item) {
        WidenTyped(t, v.items[k], item);
      }
    case TupleOf(parts) =>
      forall k | 0 <= k < |v.items| ensures Typed(t, Widen(t, v.items[k], parts[k]), parts[k]) {
        WidenTyped(t, v.items[k], parts[k]);
      }
    case RecordOf(name) =>
      var hints := t.records[name].hints;
      forall f | f in v.fields ensures Typed(t, Widen(t, v.fields[f], hints[f]), hints[f]) {
        WidenTyped(t, v.fields[f], hints[f]);
      }
    case _ =>
  }

  /** The record types that a hint names. */
  function Mentions(h: Hint): set<string>
    decreases h
  {
    match h
    case UnionOf(hs) => set i, n | 0 <= i < |hs| && n in Mentions(hs[i]) :: n
    case ManyOf(item) => Mentions(item)
    case TupleOf(parts) => set i, n | 0 <= i < |parts| && n in Mentions(parts[i]) :: n
    case RecordOf(name) => {name}
    case _ => {}
  }

  /** The fields of these record types name no other. */
  predicate Closed(t: Schema, names: set<string>) {
    forall n :: n in names && n in t.records ==>
      forall f :: f in t.records[n].hints ==> Mentions(t.records[n].hints[f]) <= names
  }

  /** The constructors of these record types accept a record they accept with its integers
      widened. */
  ghost predicate Tolerant(t: Schema, names: set<string>) {
    forall n, fields ::
      n in names && n in t.records && Typed(t, Record(n, fields), RecordOf(n)) && t.records[n].valid(fields) ==>
        t.records[n].valid(Widen(t, Record(n, fields), RecordOf(n)).fields)
  }

  /** Where the record types a hint can reach are tolerant, every value of it can be widened. */
  lemma {:induction false} WidenBuilt(t: Schema, v: Value, h: Hint, names: set<string>)
    requires Closed(t, names) && Tolerant(t, names) && Mentions(h) <= names && Typed(t, v, h) && Built(t, v)
    ensures Built(t, Widen(t, v, h))
    decreases v, h
  {
    match h
    case UnionOf(hs) =>
      var i := FirstTyped(t, v, hs, 0);
      assert forall n :: n in Mentions(hs[i]) ==> n in Mentions(h);
      WidenBuilt(t, v, hs[i], names);
    case ManyOf(item) =>
      forall k | 0 <= k < |v.items| ensures Built(t, Widen(t, v.items[k], item)) {
        WidenBuilt(t, v.items[k], item, names);
      }
    case TupleOf(parts) =>
      forall k | 0 <= k < |v.items| ensures Built(t, Widen(t, v.items[k], parts[k])) {
        assert forall n :: n in Mentions(parts[k]) ==> n in Mentions(h);
        WidenBuilt(t, v.items[k], parts[k], names);
      }
    case RecordOf(name) =>
      var hints := t.records[name].hints;
      forall f | f in v.fields ensures Built(t, Widen(t, v.fields[f], hints[f])) {
        WidenBuilt(t, v.fields[f], hints[f], names);
      }
      WidenTyped(t, v, h);
      assert v == Record(name, v.fields);
    case _ =>
  }

  /** A widened value keeps the alternative it was widened by. */
  lemma WidenedAlternative(t: Schema, v: Value, h: Hint)
    requires h.UnionOf? && PlainLiterals(h) && Settled(h) && Typed(t, v, h)
    ensures var i := FirstTyped(t, v, h.alternatives, 0);
      i < |h.alternatives| && FirstTyped(t, Widen(t, v, h.alternatives[i]), h.alternatives, 0) == i
  {
    var i := FirstTyped(t, v, h.alternatives, 0);
    var w := Widen(t, v, h.alternatives[i]);
    WidenTyped(t, v, h.alternatives[i]);
    var k := FirstTyped(t, w, h.alternatives, 0);
    hide Settled, PlainLiterals, Widen, Typed;
    if k != i {
      SharedAlternatives(t, w, h, i, k);
      PrimitiveAgrees(t, v, h.alternatives[i], h.alternatives[k]);
    }
  }

  /** A primitive that a value's widening by another has, the value has itself. */
  lemma PrimitiveAgrees(t: Schema, v: Value, a: Hint, b: Hint)
    requires Primitive(a) && Primitive(b) && Typed(t, v, a) && Typed(t, Widen(t, v, a), b)
    ensures Typed(t, v, b)
  {
  }

  /** Widening once is enough. */
  lemma {:induction false} WidenTwice(t: Schema, v: Value, h: Hint)
    requires SettledSchema(t) && PlainLiterals(h) && Settled(h) && Typed(t, v, h)
    ensures Widen(t, Widen(t, v, h), h) == Widen(t, v, h)
    decreases v, h
  {
    match h
    case UnionOf(hs) =>
      var i := FirstTyped(t, v, hs, 0);
      WidenTwice(t, v, hs[i]);
      WidenedAlternative(t, v, h);
    case ManyOf(item) =>
      forall k | 0 <= k < |v.items| ensures Widen(t, Widen(t, v.items[k], item), item) == Widen(t, v.items[k], item) {
        WidenTwice(t, v.items[k], item);
      }
    case TupleOf(parts) =>
      forall k | 0 <= k < |v.items|
        ensures Widen(t, Widen(t, v.items[k], parts[k]), parts[k]) == Widen(t, v.items[k], parts[k])
      {
        WidenTwice(t, v.items[k], parts[k]);
      }
    case RecordOf(name) =>
      var hints := t.records[name].hints;
      forall f | f in v.fields
        ensures Widen(t, Widen(t, v.fields[f], hints[f]), hints[f]) == Widen(t, v.fields[f], hints[f])
      {
        WidenTwice(t, v.fields[f], hints[f]);
      }
      assert Widen(t, Widen(t, v, h), h).fields == Widen(t, v, h).fields;
    case _ =>
  }

  // ---- Round trips ----------------------------------------------------------------------------

  /** The first alternative that a value has is the first that decodes its encoding. */
  lemma FirstDecodes(t: Schema, v: Value, h: Hint)
    requires h.UnionOf? && PlainLiterals(h) && Built(t, v) && Typed(t, v, h)
    requires Decode(t, Encode(v), h.alternatives[FirstTyped(t, v, h.alternatives, 0)]).Some?
    ensures Decode(t, Encode(v), h) == Decode(t, Encode(v), h.alternatives[FirstTyped(t, v, h.alternatives, 0)])
  {
    var i := FirstTyped(t, v, h.alternatives, 0);
    TypedIsFinite(t, v, h);
    forall n | 0 <= n < i ensures Decode(t, Encode(v), h.alternatives[n]).None? {
      if Decode(t, Encode(v), h.alternatives[n]).Some? { EncodedIsTyped(t, v, h.alternatives[n]); }
    }
    DecodesAt(t, Encode(v), h, 0, i);
  }

  /** For every schema: decoding an encoded value gives the value back, with its integers in float
      places widened, whenever its records' constructors accept them so widened. */
  lemma {:induction false} RoundTrip(t: Schema, v: Value, h: Hint)
    requires WellFormed(t) && PlainLiterals(h) && Built(t, v) && Typed(t, v, h) && Built(t, Widen(t, v, h))
    ensures Decode(t, Encode(v), h) == Some(Widen(t, v, h))
    decreases v, h
  {
    match h
    case UnionOf(hs) =>
      RoundTrip(t, v, hs[FirstTyped(t, v, hs, 0)]);
      FirstDecodes(t, v, h);
    case LiteralOf(choices) => assert Plain(v);
    case ManyOf(item) =>
      forall k | 0 <= k < |v.items| ensures Decode(t, Encode(v.items[k]), item) == Some(Widen(t, v.items[k], item)) {
        assert Widen(t, v, h).items[k] == Widen(t, v.items[k], item);
        RoundTrip(t, v.items[k], item);
      }
      assert Decode(t, Encode(v), h).value.items == Widen(t, v, h).items;
    case TupleOf(parts) =>
      forall k | 0 <= k < |v.items|
        ensures Decode(t, Encode(v.items[k]), parts[k]) == Some(Widen(t, v.items[k], parts[k]))
      {
        assert Widen(t, v, h).items[k] == Widen(t, v.items[k], parts[k]);
        RoundTrip(t, v.items[k], parts[k]);
      }
      assert Decode(t, Encode(v), h).value.items == Widen(t, v, h).items;
    case RecordOf(name) =>
      var hints := t.records[name].hints;
      forall f | f in v.fields
        ensures Decode(t, Encode(v.fields[f]), hints[f]) == Some(Widen(t, v.fields[f], hints[f]))
      {
        assert Widen(t, v, h).fields[f] == Widen(t, v.fields[f], hints[f]);
        RoundTrip(t, v.fields[f], hints[f]);
      }
      RecordRoundTrip(t, v, name);
    case _ =>
  }

  /** Decoding a complete record constructs it from its decoded fields. */
  lemma DecodeComplete(t: Schema, j: Json, name: string, fields: map<string, Value>)
    requires name in t.records && j.JObject? && TAG in j.members && j.members[TAG] == JStr(name)
    requires Supplied(j.members) == t.records[name].hints.Keys == fields.Keys
    requires forall f :: f in fields ==> Decode(t, j.members[f], t.records[name].hints[f]) == Some(fields[f])
    ensures Decode(t, j, RecordOf(name)) == Construct(t, name, fields)
  {
    var r := t.records[name];
    var supplied := Supplied(j.members);
    var decoded := map f | f in supplied :: Decode(t, j.members[f], r.hints[f]).value;
    assert decoded == fields;
    assert Filled(r, fields) == fields;
  }

  lemma EncodedRecord(t: Schema, name: string, fields: map<string, Value>)
    requires TAG !in fields
    ensures var j := Encode(Record(name, fields));
      && j.JObject? && TAG in j.members && j.members[TAG] == JStr(name) && Supplied(j.members) == fields.Keys
      && forall f :: f in fields ==> j.members[f] == Encode(fields[f])
  {
  }

  lemma WidenedRecord(t: Schema, name: string, fields: map<string, Value>)
    requires Typed(t, Record(name, fields), RecordOf(name))
    ensures var w := Widen(t, Record(name, fields), RecordOf(name));
      && w.Record? && w.name == name && w.fields.Keys == fields.Keys
      && Construct(t, name, w.fields) == (if t.records[name].valid(w.fields) then Some(w) else None)
      && forall f :: f in fields ==> w.fields[f] == Widen(t, fields[f], t.records[name].hints[f])
  {
    WidenTyped(t, Record(name, fields), RecordOf(name));
  }

  /** A record whose fields come back widened comes back itself if its constructor accepts them. */
  lemma RecordRoundTrip(t: Schema, v: Value, name: string)
    requires Untagged(t) && Typed(t, v, RecordOf(name))
    requires forall f :: f in v.fields ==>
      Decode(t, Encode(v.fields[f]), t.records[name].hints[f]) == Some(Widen(t, v.fields[f], t.records[name].hints[f]))
    ensures Widen(t, v, RecordOf(name)).Record?
    ensures Decode(t, Encode(v), RecordOf(name)) ==
      (if t.records[name].valid(Widen(t, v, RecordOf(name)).fields) then Some(Widen(t, v, RecordOf(name))) else None)
  {
    assert v == Record(name, v.fields);
    EncodedRecord(t, name, v.fields);
    WidenedRecord(t, name, v.fields);
    hide Widen, Encode, Decode, Construct, Supplied;
    DecodeComplete(t, Encode(v), name, Widen(t, v, RecordOf(name)).fields);
  }

  /** A decoded record has all its fields decoded. */
  lemma FieldsDecode(t: Schema, v: Value, name: string, f: string)
    requires Untagged(t) && Typed(t, v, RecordOf(name)) && Decode(t, Encode(v), RecordOf(name)).Some? && f in v.fields
    ensures Decode(t, Encode(v.fields[f]), t.records[name].hints[f]).Some?
  {
    assert v == Record(name, v.fields);
    EncodedRecord(t, name, v.fields);
    assert f in Supplied(Encode(v).members) && Encode(v).members[f] == Encode(v.fields[f]);
    hide Encode, Supplied, Construct, FieldsFit, Filled;
  }

  /** Where the alternatives of all unions are apart, that condition is exact: a value whose
      widening some constructor refuses is not decoded at all. */
  lemma DecodesIffWidens(t: Schema, v: Value, h: Hint)
    requires SettledSchema(t) && PlainLiterals(h) && Settled(h) && Built(t, v) && Typed(t, v, h)
    ensures Decode(t, Encode(v), h) == if Built(t, Widen(t, v, h)) then Some(Widen(t, v, h)) else None
  {
    if Built(t, Widen(t, v, h)) {
      RoundTrip(t, v, h);
    } else if Decode(t, Encode(v), h).Some? {
      DecodedWidens(t, v, h);
    }
  }

  /** The first alternative a value has decodes it, or is a primitive. */
  lemma DecodedAlternative(t: Schema, v: Value, h: Hint)
    requires h.UnionOf? && PlainLiterals(h) && Settled(h) && Built(t, v) && Typed(t, v, h)
    requires Decode(t, Encode(v), h).Some?
    ensures var i := FirstTyped(t, v, h.alternatives, 0);
      && i < |h.alternatives| && Typed(t, v, h.alternatives[i])
      && PlainLiterals(h.alternatives[i]) && Settled(h.alternatives[i])
      && Widen(t, v, h) == Widen(t, v, h.alternatives[i])
      && (Primitive(h.alternatives[i]) || Decode(t, Encode(v), h.alternatives[i]).Some?)
  {
    var i := FirstTyped(t, v, h.alternatives, 0);
    var k := Decoding(t, Encode(v), h, 0);
    TypedIsFinite(t, v, h);
    EncodedIsTyped(t, v, h.alternatives[k]);
    hide Settled, PlainLiterals, Encode, Decode, Built;
    if k != i { SharedAlternatives(t, v, h, i, k); }
  }

  lemma PrimitiveWidens(t: Schema, v: Value, h: Hint)
    requires Primitive(h) && Typed(t, v, h)
    ensures Built(t, Widen(t, v, h))
  {
  }

  /** The hint of an item of a tuple. */
  function ItemHint(h: Hint, k: nat): Hint
    requires h.ManyOf? || (h.TupleOf? && k < |h.parts|)
  {
    if h.ManyOf? then h.item else h.parts[k]
  }

  /** What a decoded, constructed tuple says of its items. */
  lemma ItemDecodes(t: Schema, v: Value, h: Hint, k: nat)
    requires (h.ManyOf? || h.TupleOf?) && PlainLiterals(h) && Settled(h) && Built(t, v) && Typed(t, v, h)
    requires Decode(t, Encode(v), h).Some? && k < |v.items|
    ensures h.TupleOf? ==> k < |h.parts|
    ensures var item := ItemHint(h, k);
      && PlainLiterals(item) && Settled(item) && Built(t, v.items[k]) && Typed(t, v.items[k], item)
      && Decode(t, Encode(v.items[k]), item).Some? && item < h
  {
    assert Encode(v).items[k] == Encode(v.items[k]);
  }

  lemma ItemsWiden(t: Schema, v: Value, h: Hint)
    requires (h.ManyOf? || h.TupleOf?) && Typed(t, v, h)
    requires forall k :: 0 <= k < |v.items| ==> Built(t, Widen(t, v.items[k], ItemHint(h, k)))
    ensures Built(t, Widen(t, v, h))
  {
  }

  lemma {:induction false} DecodedWidens(t: Schema, v: Value, h: Hint)
    requires SettledSchema(t) && PlainLiterals(h) && Settled(h) && Built(t, v) && Typed(t, v, h)
    requires Decode(t, Encode(v), h).Some?
    ensures Built(t, Widen(t, v, h))
    decreases v, h
  {
    match h
    case UnionOf(hs) =>
      hide *;
      var i := FirstTyped(t, v, hs, 0);
      DecodedAlternative(t, v, h);
      if Primitive(hs[i]) { PrimitiveWidens(t, v, hs[i]); } else { DecodedWidens(t, v, hs[i]); }
    case ManyOf(_) =>
      assert v.Tuple?;
      hide *;
      forall k | 0 <= k < |v.items| ensures Built(t, Widen(t, v.items[k], ItemHint(h, k))) {
        ItemDecodes(t, v, h, k);
        DecodedWidens(t, v.items[k], ItemHint(h, k));
      }
      ItemsWiden(t, v, h);
    case TupleOf(_) =>
      assert v.Tuple? && |v.items| == |h.parts|;
      hide *;
      forall k | 0 <= k < |v.items| ensures Built(t, Widen(t, v.items[k], ItemHint(h, k))) {
        ItemDecodes(t, v, h, k);
        DecodedWidens(t, v.items[k], ItemHint(h, k));
      }
      ItemsWiden(t, v, h);
    case RecordOf(name) =>
      assert v.Record? && name in t.records && v.fields.Keys == t.records[name].hints.Keys;
      hide *;
      forall f | f in v.fields ensures Built(t, Widen(t, v.fields[f], t.records[name].hints[f])) {
        FieldDecodes(t, v, name, f);
        DecodedWidens(t, v.fields[f], t.records[name].hints[f]);
      }
      DecodedRecordWidens(t, v, name);
    case LiteralOf(_) => hide Decode, Encode;
    case _ => PrimitiveWidens(t, v, h);
  }

  lemma FieldDecodes(t: Schema, v: Value, name: string, f: string)
    requires SettledSchema(t) && Built(t, v) && Typed(t, v, RecordOf(name))
    requires Decode(t, Encode(v), RecordOf(name)).Some? && f in v.fields
    ensures var h := t.records[name].hints[f];
      && PlainLiterals(h) && Settled(h) && Built(t, v.fields[f]) && Typed(t, v.fields[f], h)
      && Decode(t, Encode(v.fields[f]), h).Some?
  {
    FieldsDecode(t, v, name, f);
    hide Decode, Encode;
  }

  lemma DecodedRecordWidens(t: Schema, v: Value, name: string)
    requires SettledSchema(t) && Built(t, v) && Typed(t, v, RecordOf(name))
      && Decode(t, Encode(v), RecordOf(name)).Some?
    requires forall f :: f in v.fields ==> Built(t, Widen(t, v.fields[f], t.records[name].hints[f]))
    ensures Built(t, Widen(t, v, RecordOf(name)))
  {
    var hints := t.records[name].hints;
    assert v == Record(name, v.fields) && WellFormed(t);
    assert forall f :: f in v.fields ==>
      Built(t, v.fields[f]) && PlainLiterals(hints[f]) && Typed(t, v.fields[f], hints[f]);
    WidenTyped(t, v, RecordOf(name));
    WidenedRecord(t, name, v.fields);
    var w := Widen(t, v, RecordOf(name));
    assert Built(t, w) <==> t.records[name].valid(w.fields) by { hide Decode, Encode; }
    hide Built, Widen, Typed, Decode, Encode, PlainLiterals, SettledSchema;
    forall f | f in v.fields ensures Decode(t, Encode(v.fields[f]), hints[f]) == Some(Widen(t, v.fields[f], hints[f])) {
      RoundTrip(t, v.fields[f], hints[f]);
    }
    RecordRoundTrip(t, v, name);
  }

  /** A second round trip changes nothing. */
  lemma SecondRoundTrip(t: Schema, v: Value, h: Hint)
    requires SettledSchema(t) && PlainLiterals(h) && Settled(h) && Typed(t, v, h) && Built(t, Widen(t, v, h))
    ensures var w := Widen(t, v, h); Decode(t, Encode(w), h) == Some(w)
  {
    WidenTyped(t, v, h);
    WidenTwice(t, v, h);
    RoundTrip(t, Widen(t, v, h), h);
  }

  // ---- Decoding against the typing check ------------------------------------------------------

  /** No non-finite float outside an object. */
  predicate FiniteTree(j: Json)
    decreases j
  {
    match j
    case JNonFinite => false
    case JArray(items) => forall k :: 0 <= k < |items| ==> FiniteTree(items[k])
    case _ => true
  }

  /** What decodes satisfies the typing check exactly when no non-finite float of the input stands
      outside an object: a bare float hint lets them through, and only record constructors look
      again. */
  lemma {:induction false} DecodedTypedIff(t: Schema, j: Json, h: Hint)
    requires PlainLiterals(h) && Decode(t, j, h).Some?
    ensures Typed(t, Decode(t, j, h).value, h) <==> FiniteTree(j)
    decreases j, h
  {
    var v := Decode(t, j, h).value;
    if Typed(t, v, h) {
      TypedIsFinite(t, v, h);
      FiniteValueIffTree(t, j, h);
    } else {
      match h
      case UnionOf(hs) =>
        var i := Decoding(t, j, h, 0);
        DecodedTypedIff(t, j, hs[i]);
      case ManyOf(item) =>
        var k :| 0 <= k < |v.items| && !Typed(t, v.items[k], item);
        DecodedTypedIff(t, j.items[k], item);
      case TupleOf(parts) =>
        var k :| 0 <= k < |v.items| && !Typed(t, v.items[k], parts[k]);
        DecodedTypedIff(t, j.items[k], parts[k]);
      case _ =>
    }
  }

  lemma {:induction false} FiniteValueIffTree(t: Schema, j: Json, h: Hint)
    requires Decode(t, j, h).Some?
    ensures FiniteOutside(Decode(t, j, h).value) <==> FiniteTree(j)
    decreases j, h
  {
    var v := Decode(t, j, h).value;
    match h
    case UnionOf(hs) =>
      var i := Decoding(t, j, h, 0);
      FiniteValueIffTree(t, j, hs[i]);
    case ManyOf(item) =>
      forall k | 0 <= k < |j.items| ensures FiniteOutside(v.items[k]) <==> FiniteTree(j.items[k]) {
        FiniteValueIffTree(t, j.items[k], item);
      }
    case TupleOf(parts) =>
      forall k | 0 <= k < |j.items| ensures FiniteOutside(v.items[k]) <==> FiniteTree(j.items[k]) {
        FiniteValueIffTree(t, j.items[k], parts[k]);
      }
    case _ =>
  }

  /** A float hint accepts what the check refuses. */
  lemma BareNonFiniteDecodes(t: Schema)
    ensures Decode(t, JNonFinite, FloatHint) == Some(NonFinite) && !Typed(t, NonFinite, FloatHint)
  {
  }

  /** Whatever a record hint decodes to satisfies the check, at every depth. */
  lemma DecodedRecordIsTyped(t: Schema, j: Json, name: string)
    requires Decode(t, j, RecordOf(name)).Some?
    ensures Typed(t, Decode(t, j, RecordOf(name)).value, RecordOf(name))
  {
  }

  predicate DefaultsBuilt(t: Schema) {
    forall n :: n in t.records ==> forall f :: f in t.records[n].defaults ==> Built(t, t.records[n].defaults[f])
  }

  /** Decoding builds every record through its constructor. */
  lemma {:induction false} DecodedIsBuilt(t: Schema, j: Json, h: Hint)
    requires DefaultsBuilt(t) && Decode(t, j, h).Some?
    ensures Built(t, Decode(t, j, h).value)
    decreases j, h
  {
    match h
    case UnionOf(hs) =>
      var i := Decoding(t, j, h, 0);
      DecodedIsBuilt(t, j, hs[i]);
    case ManyOf(item) =>
      forall k | 0 <= k < |j.items| ensures Built(t, Decode(t, j.items[k], item).value) {
        DecodedIsBuilt(t, j.items[k], item);
      }
    case TupleOf(parts) =>
      forall k | 0 <= k < |j.items| ensures Built(t, Decode(t, j.items[k], parts[k]).value) {
        DecodedIsBuilt(t, j.items[k], parts[k]);
      }
    case RecordOf(name) =>
      var r := t.records[name];
      forall f | f in Supplied(j.members) ensures Built(t, Decode(t, j.members[f], r.hints[f]).value) {
        DecodedIsBuilt(t, j.members[f], r.hints[f]);
      }
    case _ =>
  }

  // ---- Whole messages -------------------------------------------------------------------------

  /** `boundary_json`, up to the text: a record is encoded only if it decodes again. */
  function BoundaryJson(t: Schema, v: Value): Option<Json> {
    if v.Record? && Decode(t, Encode(v), RecordOf(v.name)).Some? then Some(Encode(v)) else None
  }

  /** `boundary_from_json`: the tag chooses the type. */
  function BoundaryFromJson(t: Schema, j: Json): Option<Value> {
    if j.JObject? && TAG in j.members && j.members[TAG].JStr? && j.members[TAG].text in t.records then
      Decode(t, j, RecordOf(j.members[TAG].text))
    else None
  }

  /** A constructed record is encoded exactly when the constructors accept it widened, and it is
      then read back so. */
  lemma MessageRoundTrip(t: Schema, v: Value)
    requires SettledSchema(t) && v.Record? && Built(t, v)
    ensures var w := Widen(t, v, RecordOf(v.name));
      && BoundaryJson(t, v) == (if Built(t, w) then Some(Encode(v)) else None)
      && BoundaryFromJson(t, Encode(v)) == (if Built(t, w) then Some(w) else None)
  {
    DecodesIffWidens(t, v, RecordOf(v.name));
  }

  /** So every constructed record goes through if the record types it can reach are tolerant. */
  lemma TolerantMessages(t: Schema, v: Value, names: set<string>)
    requires SettledSchema(t) && v.Record? && Built(t, v)
    requires v.name in names && Closed(t, names) && Tolerant(t, names)
    ensures BoundaryJson(t, v) == Some(Encode(v))
    ensures BoundaryFromJson(t, Encode(v)) == Some(Widen(t, v, RecordOf(v.name)))
  {
    WidenBuilt(t, v, RecordOf(v.name), names);
    MessageRoundTrip(t, v);
  }

  lemma EncodedRecordsAgree(name: string, fields: map<string, Value>, other: string, others: map<string, Value>)
    requires TAG !in fields && TAG !in others && Encode(Record(name, fields)) == Encode(Record(other, others))
    ensures name == other && fields.Keys == others.Keys
    ensures forall f :: f in fields ==> Encode(fields[f]) == Encode(others[f])
  {
    var j := Encode(Record(name, fields));
    assert j.members[TAG] == JStr(name) && j.members[TAG] == JStr(other);
    assert fields.Keys == j.members.Keys - {TAG} && others.Keys == j.members.Keys - {TAG};
    forall f | f in fields ensures Encode(fields[f]) == Encode(others[f]) { assert j.members[f] == Encode(fields[f]); }
  }

  lemma BuiltRecord(t: Schema, v: Value)
    requires Untagged(t) && v.Record? && Built(t, v)
    ensures TAG !in v.fields && forall f :: f in v.fields ==> Built(t, v.fields[f])
  {
  }

  /** Constructed values are told apart by their encodings. */
  lemma {:induction false} EncodeInjective(t: Schema, a: Value, b: Value)
    requires Untagged(t) && Built(t, a) && Built(t, b) && Encode(a) == Encode(b)
    ensures a == b
    decreases a
  {
    hide Untagged, Typed;
    match a
    case Tuple(items) =>
      assert |items| == |b.items|;
      forall k | 0 <= k < |items| ensures items[k] == b.items[k] {
        assert Encode(a).items[k] == Encode(b).items[k];
        EncodeInjective(t, items[k], b.items[k]);
      }
    case Record(name, fields) =>
      BuiltRecord(t, a);
      assert b.Record? by { assert Encode(b).JObject?; }
      BuiltRecord(t, b);
      EncodedRecordsAgree(name, fields, b.name, b.fields);
      hide Encode, Built;
      forall f | f in fields ensures fields[f] == b.fields[f] { EncodeInjective(t, fields[f], b.fields[f]); }
    case _ =>
  }

  /** Decoding an encoded record and encoding it again gives the same text exactly when the record
      had no integer in a float place. */
  lemma ReencodesIffWide(t: Schema, v: Value)
    requires SettledSchema(t) && Built(t, v) && BoundaryJson(t, v).Some?
    ensures var w := BoundaryFromJson(t, Encode(v));
      w.Some? && (Encode(w.value) == Encode(v) <==> Widen(t, v, RecordOf(v.name)) == v)
  {
    MessageRoundTrip(t, v);
    var w := Widen(t, v, RecordOf(v.name));
    if Encode(w) == Encode(v) { EncodeInjective(t, w, v); }
  }
}
