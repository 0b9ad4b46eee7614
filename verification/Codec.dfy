/** The typed boundary codec: values, type hints, JSON trees, encoding, decoding and the check. */
module Codec {
  import opened Wrappers

  /** Neutral contract values. Finite floats are reals; the non-finite ones are one value. */
  datatype Value =
    | NoneValue
    | Str(text: string)
    | Bool(flag: bool)
    | Int(number: int)
    | Float(scalar: real)
    | NonFinite
    | Tuple(items: seq<Value>)
    | Record(name: string, fields: map<string, Value>)

  /** Parsed JSON, where integers and floats are told apart. */
  datatype Json =
    | JNull
    | JStr(text: string)
    | JBool(flag: bool)
    | JInt(number: int)
    | JFloat(scalar: real)
    | JNonFinite
    | JArray(items: seq<Json>)
    | JObject(members: map<string, Json>)

  datatype Hint =
    | UnionOf(alternatives: seq<Hint>)
    | LiteralOf(choices: seq<Value>)
    | NoneHint | StrHint | IntHint | FloatHint | BoolHint
    | ManyOf(item: Hint)
    | TupleOf(parts: seq<Hint>)
    | RecordOf(name: string)

  /** A contract type: its fields with their hints and defaults, whether fields with a default may
      be missing, and what its constructor checks beyond the types. */
  datatype RecordType = RecordType(
    hints: map<string, Hint>,
    defaults: map<string, Value>,
    lenient: bool,
    valid: map<string, Value> -> bool)

  /** The registered types, which integers a float can hold, and the float nearest to one. */
  datatype Schema = Schema(records: map<string, RecordType>, fits: int -> bool, nearest: int -> real)

  const TAG := "$type"

  // ---- Encoding -------------------------------------------------------------------------------

  function Encode(v: Value): Json
    decreases v
  {
    match v
    case NoneValue => JNull
    case Str(s) => JStr(s)
    case Bool(b) => JBool(b)
    case Int(i) => JInt(i)
    case Float(r) => JFloat(r)
    case NonFinite => JNonFinite
    case Tuple(items) => JArray(seq(|items|, k requires 0 <= k < |items| => Encode(items[k])))
    case Record(name, fields) => JObject((map f | f in fields :: Encode(fields[f]))[TAG := JStr(name)])
  }

  // ---- Literals -------------------------------------------------------------------------------

  /** Numbers, and the truth values that compare equal to 0 and 1. */
  function AsNumber(v: Value): Option<real> {
    match v
    case Bool(b) => Some(if b then 1.0 else 0.0)
    case Int(i) => Some(i as real)
    case Float(r) => Some(r)
    case _ => None
  }

  predicate Equal(a: Value, b: Value) {
    if AsNumber(a).Some? && AsNumber(b).Some? then AsNumber(a) == AsNumber(b)
    else a == b && !a.NonFinite?
  }

  predicate SameType(a: Value, b: Value) {
    match a
    case NoneValue => b.NoneValue?
    case Str(_) => b.Str?
    case Bool(_) => b.Bool?
    case Int(_) => b.Int?
    case Float(_) | NonFinite => b.Float? || b.NonFinite?
    case Tuple(_) => b.Tuple?
    case Record(name, _) => b.Record? && b.name == name
  }

  predicate Plain(v: Value) {
    !v.Tuple? && !v.Record?
  }

  predicate InLiteral(choices: seq<Value>, v: Value) {
    && (exists k :: 0 <= k < |choices| && Equal(v, choices[k]))
    && (exists k :: 0 <= k < |choices| && SameType(v, choices[k]))
  }

  /** A JSON scalar as a value. */
  function PlainOf(j: Json): Option<Value> {
    match j
    case JNull => Some(NoneValue)
    case JStr(s) => Some(Str(s))
    case JBool(b) => Some(Bool(b))
    case JInt(i) => Some(Int(i))
    case JFloat(r) => Some(Float(r))
    case JNonFinite => Some(NonFinite)
    case _ => None
  }

  // ---- The typing check -----------------------------------------------------------------------

  predicate Typed(t: Schema, v: Value, h: Hint)
    decreases v, h
  {
    match h
    case UnionOf(hs) => exists k :: 0 <= k < |hs| && Typed(t, v, hs[k])
    case LiteralOf(choices) => InLiteral(choices, v)
    case NoneHint => v.NoneValue?
    case StrHint => v.Str?
    case IntHint => v.Int?
    case BoolHint => v.Bool?
    case FloatHint => v.Float? || (v.Int? && t.fits(v.number))
    case ManyOf(item) => v.Tuple? && forall k :: 0 <= k < |v.items| ==> Typed(t, v.items[k], item)
    case TupleOf(parts) =>
      v.Tuple? && |v.items| == |parts| && forall k :: 0 <= k < |v.items| ==> Typed(t, v.items[k], parts[k])
    case RecordOf(name) =>
      && v.Record? && v.name == name && name in t.records && v.fields.Keys == t.records[name].hints.Keys
      && forall f :: f in v.fields ==> Typed(t, v.fields[f], t.records[name].hints[f])
  }

  /** A value all of whose records went through their constructors. */
  predicate Built(t: Schema, v: Value)
    decreases v
  {
    match v
    case Tuple(items) => forall k :: 0 <= k < |items| ==> Built(t, items[k])
    case Record(name, fields) =>
      && name in t.records && Typed(t, v, RecordOf(name)) && t.records[name].valid(fields)
      && forall f :: f in fields ==> Built(t, fields[f])
    case _ => true
  }

  // ---- Decoding -------------------------------------------------------------------------------

  /** The fields that a record's JSON supplies. */
  function Supplied(members: map<string, Json>): set<string> {
    set f | f in members && f != TAG
  }

  /** A record may leave fields out only if its type is lenient and they all have defaults. */
  predicate FieldsFit(r: RecordType, supplied: set<string>) {
    && supplied <= r.hints.Keys
    && (supplied != r.hints.Keys ==> r.lenient && r.hints.Keys - supplied <= r.defaults.Keys)
  }

  /** The fields of a record, the missing ones from their defaults. */
  function Filled(r: RecordType, supplied: map<string, Value>): map<string, Value>
    requires FieldsFit(r, supplied.Keys)
  {
    map f | f in r.hints :: if f in supplied then supplied[f] else r.defaults[f]
  }

  /** The record's constructor: the typing check of the whole record, then its own. */
  function Construct(t: Schema, name: string, fields: map<string, Value>): Option<Value> {
    if name in t.records && Typed(t, Record(name, fields), RecordOf(name)) && t.records[name].valid(fields) then
      Some(Record(name, fields))
    else None
  }

  function Decode(t: Schema, j: Json, h: Hint): Option<Value>
    decreases j, h, if h.UnionOf? then |h.alternatives| + 1 else 0
  {
    match h
    case UnionOf(hs) => DecodeFirst(t, j, h, 0)
    case LiteralOf(choices) =>
      var v := PlainOf(j);
      if v.Some? && InLiteral(choices, v.value) then v else None
    case NoneHint => if j.JNull? then Some(NoneValue) else None
    case StrHint => if j.JStr? then Some(Str(j.text)) else None
    case IntHint => if j.JInt? then Some(Int(j.number)) else None
    case BoolHint => if j.JBool? then Some(Bool(j.flag)) else None
    case FloatHint =>
      (match j
       case JInt(i) => if t.fits(i) then Some(Float(t.nearest(i))) else None
       case JFloat(r) => Some(Float(r))
       case JNonFinite => Some(NonFinite)
       case _ => None)
    case ManyOf(item) =>
      if j.JArray? && forall k :: 0 <= k < |j.items| ==> Decode(t, j.items[k], item).Some? then
        Some(Tuple(seq(|j.items|, k requires 0 <= k < |j.items| => Decode(t, j.items[k], item).value)))
      else None
    case TupleOf(parts) =>
      if j.JArray? && |j.items| == |parts|
        && forall k :: 0 <= k < |j.items| ==> Decode(t, j.items[k], parts[k]).Some? then
        Some(Tuple(seq(|j.items|, k requires 0 <= k < |j.items| => Decode(t, j.items[k], parts[k]).value)))
      else None
    case RecordOf(name) =>
      if name !in t.records || !j.JObject? || TAG !in j.members || j.members[TAG] != JStr(name) then None
      else
        var r := t.records[name];
        var supplied := Supplied(j.members);
        if !FieldsFit(r, supplied) || exists f :: f in supplied && Decode(t, j.members[f], r.hints[f]).None? then None
        else
          var decoded := map f | f in supplied :: Decode(t, j.members[f], r.hints[f]).value;
          assert decoded.Keys == supplied;
          Construct(t, name, Filled(r, decoded))
  }

  /** The first alternative from `k` on that decodes. */
  function DecodeFirst(t: Schema, j: Json, h: Hint, k: nat): Option<Value>
    requires h.UnionOf? && k <= |h.alternatives|
    decreases j, h, |h.alternatives| - k
  {
    if k == |h.alternatives| then None
    else
      var v := Decode(t, j, h.alternatives[k]);
      if v.Some? then v else DecodeFirst(t, j, h, k + 1)
  }

  // ---- Widening -------------------------------------------------------------------------------

  /** The first alternative from `k` on that a value has. */
  function FirstTyped(t: Schema, v: Value, hs: seq<Hint>, k: nat): (i: nat)
    requires k <= |hs|
    ensures i <= |hs| && (i < |hs| ==> Typed(t, v, hs[i])) && forall n :: k <= n < i ==> !Typed(t, v, hs[n])
    decreases |hs| - k
  {
    if k == |hs| || Typed(t, v, hs[k]) then k else FirstTyped(t, v, hs, k + 1)
  }

  /** The value with the integers in float places made floats. */
  function Widen(t: Schema, v: Value, h: Hint): Value
    decreases v, h
  {
    match h
    case UnionOf(hs) => var i := FirstTyped(t, v, hs, 0); if i == |hs| then v else Widen(t, v, hs[i])
    case FloatHint => if v.Int? then Float(t.nearest(v.number)) else v
    case ManyOf(item) =>
      if v.Tuple? then Tuple(seq(|v.items|, k requires 0 <= k < |v.items| => Widen(t, v.items[k], item))) else v
    case TupleOf(parts) =>
      if v.Tuple? && |v.items| == |parts| then
        Tuple(seq(|v.items|, k requires 0 <= k < |v.items| => Widen(t, v.items[k], parts[k])))
      else v
    case RecordOf(name) =>
      if v.Record? && name in t.records && v.fields.Keys == t.records[name].hints.Keys then
        Record(v.name, map f | f in v.fields :: Widen(t, v.fields[f], t.records[name].hints[f]))
      else v
    case _ => v
  }
}
