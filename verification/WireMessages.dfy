/** The serializer of the worker's streams: the boundary codec, as text, in frames. */
module WireMessages {
  import opened Wrappers
  import opened Codec
  import opened CodecLaws
  import opened Framing

  /** How a tree is written as bytes, and read. Not every tree can be written: a non-finite number
      is refused, and only some reals are the value of a float. */
  datatype Text = Text(write: Json -> Option<seq<byte>>, read: seq<byte> -> Option<Json>)

  /** What is written is read back. */
  ghost predicate Lossless(text: Text) {
    forall j :: text.write(j).Some? ==> text.read(text.write(j).value) == Some(j)
  }

  /** Constructed records are encoded and checked, everything else is refused. */
  function MessageWire(t: Schema, text: Text): Wire<Value> {
    Wire(
      (v: Value) =>
        if !v.Record? || !Built(t, v) then None
        else
          match BoundaryJson(t, v)
          case None => None
          case Some(j) => text.write(j),
      (bytes: seq<byte>) =>
        match text.read(bytes)
        case None => None
        case Some(j) => BoundaryFromJson(t, j))
  }

  /** A message with its integers widened to floats where its type says so. */
  function Widened(t: Schema): Value -> Value {
    (v: Value) => if v.Record? && Built(t, v) then Widen(t, v, RecordOf(v.name)) else v
  }

  lemma MessageWireIsFaithful(t: Schema, text: Text)
    requires SettledSchema(t) && Lossless(text)
    ensures Faithful(MessageWire(t, text), Widened(t))
  {
    var wire := MessageWire(t, text);
    forall v | wire.encode(v).Some? ensures wire.decode(wire.encode(v).value) == Some(Widened(t)(v)) {
      MessageRoundTrip(t, v);
    }
  }

  /** A constructed message is sent exactly when the constructors accept it widened and it has a
      text within the limit. */
  lemma SentIffWide(t: Schema, text: Text, v: Value)
    requires SettledSchema(t) && v.Record? && Built(t, v)
    ensures Fits(MessageWire(t, text), v)
       <==> Built(t, Widened(t)(v)) && text.write(Encode(v)).Some?
            && |text.write(Encode(v)).value| <= MAX_FRAME_SIZE
  {
    MessageRoundTrip(t, v);
  }

  /** Records written to a stream are read back widened, in order, and then the stream ends. */
  lemma MessagesCross(t: Schema, text: Text, vs: seq<Value>)
    requires SettledSchema(t) && Lossless(text) && AllFit(MessageWire(t, text), vs)
    ensures ParsedAll(MessageWire(t, text), Stream(MessageWire(t, text), vs)) == (Normal(Widened(t), vs), None)
  {
    MessageWireIsFaithful(t, text);
    Framing.RoundTrip(MessageWire(t, text), Widened(t), vs);
  }
}
