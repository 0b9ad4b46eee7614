/** The contract type whose overlapping union the codec does not carry whole. */
module SignalMessages {
  import opened Wrappers
  import opened Codec
  import opened CodecLaws

  /** What the constructor of a signal checks beyond its types: the value matches the declared
      type, and numbers have a unit. */
  predicate ValidSignal(fields: map<string, Value>) {
    && "signal_type" in fields && "value" in fields && "unit" in fields
    && var (kind, value) := (fields["signal_type"], fields["value"]);
    && (kind == Str("real") ==> value.Float? || value.Int?)
    && (kind == Str("integer") ==> value.Int?)
    && (kind == Str("boolean") ==> value.Bool?)
    && (kind == Str("event") ==> value.Str?)
    && (kind == Str("real") || kind == Str("integer") ==> fields["unit"].Str? && fields["unit"] != Str(""))
  }

  const KIND_HINT := LiteralOf([Str("real"), Str("integer"), Str("boolean"), Str("event")])
  const VALUE_HINT := UnionOf([FloatHint, IntHint, BoolHint, StrHint])
  const UNIT_HINT := UnionOf([StrHint, NoneHint])

  const SIGNAL_HINTS :=
    map["signal_id" := StrHint, "signal_type" := KIND_HINT, "value" := VALUE_HINT, "unit" := UNIT_HINT]

  /** The contract type of signals, whose value may be a float, an integer, a truth value or a
      string. */
  function Signals(fits: int -> bool, nearest: int -> real): Schema {
    Schema(map["SignalValue" := RecordType(SIGNAL_HINTS, map[], false, ValidSignal)], fits, nearest)
  }

  lemma SignalHintsAreSettled(f: string)
    requires f in SIGNAL_HINTS
    ensures f != TAG && PlainLiterals(SIGNAL_HINTS[f]) && Settled(SIGNAL_HINTS[f])
  {
    assert f == "signal_id" || f == "signal_type" || f == "value" || f == "unit";
    assert TAG[0] == '$' && f[0] != '$';
    var h := SIGNAL_HINTS[f];
    assert h == StrHint || h == KIND_HINT || h == VALUE_HINT || h == UNIT_HINT;
    if h.UnionOf? {
      forall i, k | 0 <= i < k < |h.alternatives| ensures Apart(h.alternatives[i], h.alternatives[k]) {
        assert Primitive(h.alternatives[i]) && Primitive(h.alternatives[k]);
      }
    }
  }

  lemma SignalsAreSettled(fits: int -> bool, nearest: int -> real)
    ensures SettledSchema(Signals(fits, nearest))
  {
    forall f | f in SIGNAL_HINTS ensures f != TAG && PlainLiterals(SIGNAL_HINTS[f]) && Settled(SIGNAL_HINTS[f]) {
      SignalHintsAreSettled(f);
    }
    hide Settled, PlainLiterals;
  }

  lemma WidenPrimitives(t: Schema, v: Value, h: Hint)
    requires h.UnionOf? && Typed(t, v, h) && forall i :: 0 <= i < |h.alternatives| ==> Primitive(h.alternatives[i])
    ensures var i := FirstTyped(t, v, h.alternatives, 0);
      i < |h.alternatives| &&
      Widen(t, v, h) == if h.alternatives[i].FloatHint? && v.Int? then Float(t.nearest(v.number)) else v
  {
  }

  lemma WidenLiteral(t: Schema, v: Value, h: Hint)
    requires h.LiteralOf?
    ensures Widen(t, v, h) == v
  {
  }

  /** The signals of a schema. */
  ghost predicate IsSignal(t: Schema, v: Value) {
    t == Signals(t.fits, t.nearest) && v.Record? && Built(t, v)
  }

  lemma SignalKeys()
    ensures SIGNAL_HINTS.Keys == {"signal_id", "signal_type", "value", "unit"}
    ensures SIGNAL_HINTS["signal_id"] == StrHint && SIGNAL_HINTS["signal_type"] == KIND_HINT
    ensures SIGNAL_HINTS["value"] == VALUE_HINT && SIGNAL_HINTS["unit"] == UNIT_HINT
  {
    assert "signal_id"[0] == 's' && "value"[0] == 'v' && "unit"[0] == 'u' && |"signal_id"| == 9
      && |"signal_type"| == 11;
  }

  /** The parts of a signal have their types and satisfy the constructor. */
  lemma SignalParts(t: Schema, v: Value)
    requires IsSignal(t, v)
    ensures v == Record("SignalValue", v.fields) && v.fields.Keys == SIGNAL_HINTS.Keys && ValidSignal(v.fields)
    ensures "SignalValue" in t.records
      && t.records["SignalValue"] == RecordType(SIGNAL_HINTS, map[], false, ValidSignal)
    ensures forall f :: f in SIGNAL_HINTS ==> Typed(t, v.fields[f], SIGNAL_HINTS[f])
    ensures Typed(t, v, RecordOf("SignalValue"))
  {
  }

  lemma PlainIsBuilt(t: Schema, v: Value)
    requires !v.Record? && !v.Tuple?
    ensures Built(t, v)
  {
  }

  lemma TypedValue(t: Schema, v: Value)
    requires Typed(t, v, VALUE_HINT)
    ensures v.Float? || v.Int? || v.Bool? || v.Str?
    ensures v.Int? ==> (FirstTyped(t, v, VALUE_HINT.alternatives, 0) == 0 <==> t.fits(v.number))
  {
    var k :| 0 <= k < 4 && Typed(t, v, VALUE_HINT.alternatives[k]);
  }

  lemma TypedUnit(t: Schema, v: Value)
    requires Typed(t, v, UNIT_HINT)
    ensures v.Str? || v.NoneValue?
  {
    var k :| 0 <= k < 2 && Typed(t, v, UNIT_HINT.alternatives[k]);
  }

  lemma TypedText(t: Schema, v: Value)
    requires Typed(t, v, KIND_HINT)
    ensures v.Str?
  {
  }

  lemma WidenValue(t: Schema, v: Value)
    requires Typed(t, v, VALUE_HINT)
    ensures Widen(t, v, VALUE_HINT) == if v.Int? && t.fits(v.number) then Float(t.nearest(v.number)) else v
  {
    TypedValue(t, v);
    WidenPrimitives(t, v, VALUE_HINT);
    hide Typed, Widen;
    var i := FirstTyped(t, v, VALUE_HINT.alternatives, 0);
    assert VALUE_HINT.alternatives[i].FloatHint? <==> i == 0;
  }

  lemma WidenUnit(t: Schema, v: Value)
    requires Typed(t, v, UNIT_HINT)
    ensures Widen(t, v, UNIT_HINT) == v && !v.Record? && !v.Tuple?
  {
    TypedUnit(t, v);
    WidenPrimitives(t, v, UNIT_HINT);
    hide Typed, Widen;
  }

  /** What widening does to the fields of a signal. */
  lemma WidenSignal(t: Schema, v: Value)
    requires IsSignal(t, v)
    ensures v.fields.Keys == {"signal_id", "signal_type", "value", "unit"}
    ensures var w := Widen(t, v, RecordOf(v.name));
      var value := v.fields["value"];
      && w.Record? && w.name == v.name == "SignalValue" && w.fields.Keys == v.fields.Keys
      && w.fields["signal_type"] == v.fields["signal_type"] && w.fields["signal_type"].Str?
      && w.fields["unit"] == v.fields["unit"] && !w.fields["unit"].Record? && !w.fields["unit"].Tuple?
      && w.fields["signal_id"].Str?
      && (value.Float? || value.Int? || value.Bool? || value.Str?)
      && w.fields["value"] == if value.Int? && t.fits(value.number) then Float(t.nearest(value.number)) else value
  {
    SignalParts(t, v);
    SignalKeys();
    WidenedRecord(t, "SignalValue", v.fields);
    WidenValue(t, v.fields["value"]);
    TypedValue(t, v.fields["value"]);
    WidenUnit(t, v.fields["unit"]);
    WidenLiteral(t, v.fields["signal_type"], KIND_HINT);
    TypedText(t, v.fields["signal_type"]);
    WidenId(t, v.fields["signal_id"]);
    hide *;
  }

  lemma WidenId(t: Schema, v: Value)
    requires Typed(t, v, StrHint)
    ensures Widen(t, v, StrHint) == v && v.Str?
  {
  }

  /** A signal of the right types, all of whose fields are scalars, is built exactly when its
      constructor accepts it. */
  lemma SignalBuiltIff(t: Schema, w: Value)
    requires t == Signals(t.fits, t.nearest) && Typed(t, w, RecordOf("SignalValue"))
    requires forall f :: f in w.fields ==> !w.fields[f].Record? && !w.fields[f].Tuple?
    ensures Built(t, w) <==> ValidSignal(w.fields)
  {
    forall f | f in w.fields ensures Built(t, w.fields[f]) { PlainIsBuilt(t, w.fields[f]); }
    hide ValidSignal;
    assert w == Record("SignalValue", w.fields);
  }

  lemma ScalarSignal(t: Schema, w: Value)
    requires t == Signals(t.fits, t.nearest) && Typed(t, w, RecordOf("SignalValue"))
    requires w.fields.Keys == {"signal_id", "signal_type", "value", "unit"}
    requires Scalar(w.fields["signal_id"]) && Scalar(w.fields["signal_type"])
    requires Scalar(w.fields["value"]) && Scalar(w.fields["unit"])
    ensures Built(t, w) <==> ValidSignal(w.fields)
  {
    forall f | f in w.fields ensures !w.fields[f].Record? && !w.fields[f].Tuple? {
      assert f == "signal_id" || f == "signal_type" || f == "value" || f == "unit";
    }
    hide Typed, Signals, ValidSignal, Built;
    SignalBuiltIff(t, w);
  }

  predicate Scalar(v: Value) {
    !v.Record? && !v.Tuple?
  }

  lemma SignalWidensIff(t: Schema, v: Value)
    requires IsSignal(t, v)
    ensures v.fields.Keys == {"signal_id", "signal_type", "value", "unit"} && v.name == "SignalValue"
    ensures Built(t, Widen(t, v, RecordOf(v.name))) <==>
      !(v.fields["signal_type"] == Str("integer") && v.fields["value"].Int? && t.fits(v.fields["value"].number))
  {
    assert t == Signals(t.fits, t.nearest);
    SignalParts(t, v);
    hide Widen, Typed, Built, Signals, ValidSignal;
    WidenSignal(t, v);
    var w := Widen(t, v, RecordOf("SignalValue"));
    WidenTyped(t, v, RecordOf("SignalValue"));
    assert Scalar(w.fields["signal_id"]) && Scalar(w.fields["signal_type"]) && Scalar(w.fields["value"])
      && Scalar(w.fields["unit"]);
    hide *;
    ScalarSignal(t, w);
    SignalStaysValid(v.fields, w.fields);
    IntegerIsInt(v.fields);
  }

  lemma IntegerIsInt(fields: map<string, Value>)
    requires ValidSignal(fields)
    ensures fields["signal_type"] == Str("integer") ==> fields["value"].Int?
  {
  }

  /** Exactly the integer signals that a float can hold are refused: the float comes first among
      the alternatives, and the constructor then refuses it. */
  lemma SignalRefusedIffInteger(t: Schema, v: Value)
    requires IsSignal(t, v)
    ensures "signal_type" in v.fields && "value" in v.fields
    ensures BoundaryJson(t, v) == None <==>
      v.fields["signal_type"] == Str("integer") && v.fields["value"].Int? && t.fits(v.fields["value"].number)
  {
    SignalsAreSettled(t.fits, t.nearest);
    SignalWidensIff(t, v);
    assert v.Record? && Built(t, v) && SettledSchema(t);
    hide *;
    MessageRoundTrip(t, v);
  }

  const METRES := map["signal_id" := Str("s"), "signal_type" := Str("integer"), "value" := Int(3), "unit" := Str("m")]

  /** A signal that can be constructed and not encoded. */
  lemma IntegerSignalIsRefused(t: Schema)
    requires t == Signals(t.fits, t.nearest) && t.fits(3)
    ensures Built(t, Record("SignalValue", METRES)) && BoundaryJson(t, Record("SignalValue", METRES)) == None
  {
    var v := Record("SignalValue", METRES);
    MetresAreTyped(t);
    MetresAreInteger();
    hide Typed, Signals, ValidSignal, Built, BoundaryJson;
    SignalBuiltIff(t, v);
    SignalRefusedIffInteger(t, v);
  }

  lemma MetresAreInteger()
    ensures METRES["signal_type"] == Str("integer") && METRES["value"] == Int(3) && ValidSignal(METRES)
  {
  }

  lemma HasAlternative(t: Schema, v: Value, h: Hint, k: nat)
    requires h.UnionOf? && k < |h.alternatives| && Typed(t, v, h.alternatives[k])
    ensures Typed(t, v, h)
  {
  }

  lemma MetresHaveTypes(t: Schema)
    ensures Typed(t, Str("s"), StrHint) && Typed(t, Str("integer"), KIND_HINT)
    ensures Typed(t, Int(3), VALUE_HINT) && Typed(t, Str("m"), UNIT_HINT)
  {
    HasAlternative(t, Int(3), VALUE_HINT, 1);
    HasAlternative(t, Str("m"), UNIT_HINT, 0);
    assert Equal(Str("integer"), KIND_HINT.choices[1]) && SameType(Str("integer"), KIND_HINT.choices[1]);
  }

  lemma RecordHasType(t: Schema, name: string, fields: map<string, Value>)
    requires name in t.records && fields.Keys == t.records[name].hints.Keys
    requires forall f :: f in fields ==> Typed(t, fields[f], t.records[name].hints[f])
    ensures Typed(t, Record(name, fields), RecordOf(name))
  {
  }

  lemma MetresFields(t: Schema, f: string)
    requires f in METRES
    ensures f in SIGNAL_HINTS && Typed(t, METRES[f], SIGNAL_HINTS[f]) && Scalar(METRES[f])
  {
    SignalKeys();
    MetresHaveTypes(t);
    hide Typed;
    assert f == "signal_id" || f == "signal_type" || f == "value" || f == "unit";
  }

  lemma MetresAreTyped(t: Schema)
    requires t == Signals(t.fits, t.nearest)
    ensures Typed(t, Record("SignalValue", METRES), RecordOf("SignalValue"))
    ensures forall f :: f in METRES ==> Scalar(METRES[f])
  {
    SignalKeys();
    assert METRES.Keys == {"signal_id", "signal_type", "value", "unit"};
    assert "SignalValue" in t.records && t.records["SignalValue"].hints == SIGNAL_HINTS;
    hide *;
    forall f | f in METRES ensures Typed(t, METRES[f], SIGNAL_HINTS[f]) && Scalar(METRES[f]) { MetresFields(t, f); }
    RecordHasType(t, "SignalValue", METRES);
  }

  /** Which widened values the constructor still accepts. */
  lemma SignalStaysValid(before: map<string, Value>, after: map<string, Value>)
    requires ValidSignal(before) && after.Keys == before.Keys
    requires after["signal_type"] == before["signal_type"] && after["unit"] == before["unit"]
    requires after["value"] == before["value"] || (before["value"].Int? && after["value"].Float?)
    ensures ValidSignal(after) <==> after["value"] == before["value"] || before["signal_type"] != Str("integer")
  {
  }
}
