/** Length-prefixed frames over a byte stream whose reads may be short. */
module Framing {
  import opened Wrappers

  newtype byte = x: int | 0 <= x < 256

  const MAX_FRAME_SIZE: nat := 10 * 1024 * 1024

  /** The serializer of messages to payloads, which may refuse one, and the deserializer. */
  datatype Wire<!M> = Wire(encode: M -> Option<seq<byte>>, decode: seq<byte> -> Option<M>)

  /** What is encoded is read back as its normal form. */
  ghost predicate Faithful<M(!new)>(wire: Wire<M>, norm: M -> M) {
    forall m :: wire.encode(m).Some? ==> wire.decode(wire.encode(m).value) == Some(norm(m))
  }

  function Normal<M>(norm: M -> M, ms: seq<M>): seq<M> {
    seq(|ms|, i requires 0 <= i < |ms| => norm(ms[i]))
  }

  datatype FrameError = TooLarge | Truncated | Undecodable | Unencodable

  // ---- The length header ----------------------------------------------------------------------

  /** Four bytes, most significant first. */
  function Header(n: nat): (h: seq<byte>)
    requires n < 0x1_0000_0000
    ensures |h| == 4
  {
    [(n / 0x100_0000) as byte, (n / 0x1_0000 % 0x100) as byte, (n / 0x100 % 0x100) as byte, (n % 0x100) as byte]
  }

  function Length(h: seq<byte>): (n: nat)
    requires |h| == 4
    ensures n < 0x1_0000_0000
  {
    h[0] as int * 0x100_0000 + h[1] as int * 0x1_0000 + h[2] as int * 0x100 + h[3] as int
  }

  lemma LengthOfHeader(n: nat)
    requires n < 0x1_0000_0000
    ensures Length(Header(n)) == n
    ensures var h := Header(n);
      h[0] as int * 0x100_0000 + h[1] as int * 0x1_0000 + h[2] as int * 0x100 + h[3] as int == n
  {
    var a, b := n / 0x100, n / 0x1_0000;
    assert n == a * 0x100 + n % 0x100;
    assert b == a / 0x100 && a == b * 0x100 + a % 0x100;
    assert n / 0x100_0000 == b / 0x100 && b == b / 0x100 * 0x100 + b % 0x100;
  }

  // ---- Streams --------------------------------------------------------------------------------

  class InputStream {
    const data: seq<byte>
    var position: nat

    ghost predicate Valid()
      reads this
    {
      position <= |data|
    }

    ghost function Rest(): seq<byte>
      reads this
      requires Valid()
    {
      data[position..]
    }

    constructor (data: seq<byte>)
      ensures Valid() && this.data == data && Rest() == data
    {
      this.data, position := data, 0;
    }

    /** Any non-empty part of what is left, up to `count` bytes; nothing only at the end. */
    method Read(count: nat) returns (chunk: seq<byte>)
      requires Valid() && count > 0
      modifies this
      ensures Valid() && |chunk| <= count && (chunk == [] <==> old(Rest()) == [])
      ensures old(Rest()) == chunk + Rest()
    {
      var left := |data| - position;
      var n :| 0 <= n <= count && n <= left && (n == 0 ==> left == 0);
      chunk := data[position..position + n];
      position := position + n;
    }

    /** `_read_exact`: nothing at all at a clean end, an error at an end inside. */
    method ReadExact(count: nat) returns (r: Result<seq<byte>, FrameError>)
      requires Valid()
      modifies this
      ensures Valid()
      ensures var rest := old(Rest());
        if count <= |rest| then r == Success(rest[..count]) && Rest() == rest[count..]
        else Rest() == [] && r == if rest == [] then Success([]) else Failure(Truncated)
    {
      var bytes: seq<byte> := [];
      ghost var rest := Rest();
      while |bytes| < count
        invariant Valid() && |bytes| <= count && rest == bytes + Rest()
        decreases count - |bytes|
      {
        var chunk := Read(count - |bytes|);
        if chunk == [] {
          if bytes == [] { return Success([]); }
          return Failure(Truncated);
        }
        bytes := bytes + chunk;
      }
      return Success(bytes);
    }

    /** `read_frame`: no message at a clean end. */
    method ReadFrame<M>(wire: Wire<M>) returns (r: Result<Option<M>, FrameError>)
      requires Valid()
      modifies this
      ensures Valid()
      ensures var rest := old(Rest()); r == Parsed(wire, rest) && Rest() == rest[Consumed(rest)..]
    {
      ghost var rest := Rest();
      var header := ReadExact(4);
      if header.Failure? { return Failure(header.error); }
      if header.value == [] { return Success(None); }
      var length := Length(header.value);
      if length > MAX_FRAME_SIZE { return Failure(TooLarge); }
      var body := ReadExact(length);
      if body.Failure? { return Failure(body.error); }
      if |body.value| < length { return Failure(Truncated); }
      assert rest[4..][..length] == rest[4..4 + length];
      var message := wire.decode(body.value);
      if message.None? { return Failure(Undecodable); }
      return Success(Some(message.value));
    }

    /** Reading until the clean end or the first error. */
    method Drain<M>(wire: Wire<M>) returns (messages: seq<M>, end: Option<FrameError>)
      requires Valid()
      modifies this
      ensures Valid() && (messages, end) == ParsedAll(wire, old(Rest()))
    {
      messages := [];
      ghost var all := ParsedAll(wire, Rest());
      assert [] + all.0 == all.0;
      while true
        invariant Valid() && all.0 == messages + ParsedAll(wire, Rest()).0 && all.1 == ParsedAll(wire, Rest()).1
        decreases |Rest()|
      {
        ghost var now := ParsedAll(wire, Rest()).0;
        var r := ReadFrame(wire);
        if r.Failure? || r.value.None? { assert messages + [] == messages; }
        if r.Failure? { return messages, Some(r.error); }
        if r.value.None? { return messages, None; }
        assert now == [r.value.value] + ParsedAll(wire, Rest()).0;
        assert messages + now == messages + [r.value.value] + ParsedAll(wire, Rest()).0;
        messages := messages + [r.value.value];
      }
    }
  }

  class OutputStream {
    var data: seq<byte>

    constructor ()
      ensures data == []
    {
      data := [];
    }

    /** `write_frame`: a refused message, or a payload over the limit, writes nothing. */
    method WriteFrame<M>(wire: Wire<M>, m: M) returns (r: Result<(), FrameError>)
      modifies this
      ensures r.Success? <==> Fits(wire, m)
      ensures data == old(data) + if Fits(wire, m) then FrameOf(wire, m) else []
    {
      var encoded := wire.encode(m);
      if encoded.None? { return Failure(Unencodable); }
      var payload := encoded.value;
      if |payload| > MAX_FRAME_SIZE { return Failure(TooLarge); }
      data := data + (Header(|payload|) + payload);
      return Success(());
    }
  }

  // ---- What a stream means --------------------------------------------------------------------

  predicate Fits<M>(wire: Wire<M>, m: M) {
    wire.encode(m).Some? && |wire.encode(m).value| <= MAX_FRAME_SIZE
  }

  function FrameOf<M>(wire: Wire<M>, m: M): seq<byte>
    requires Fits(wire, m)
  {
    Header(|wire.encode(m).value|) + wire.encode(m).value
  }

  /** The first frame of a stream, or why there is none. */
  function Parsed<M>(wire: Wire<M>, rest: seq<byte>): Result<Option<M>, FrameError> {
    if rest == [] then Success(None)
    else if |rest| < 4 then Failure(Truncated)
    else
      var n := Length(rest[..4]);
      if n > MAX_FRAME_SIZE then Failure(TooLarge)
      else if |rest| < 4 + n then Failure(Truncated)
      else
        var m := wire.decode(rest[4..4 + n]);
        if m.None? then Failure(Undecodable) else Success(m)
  }

  /** How much of the stream reading the first frame takes. */
  function Consumed(rest: seq<byte>): (n: nat)
    ensures n <= |rest| && (rest != [] ==> n > 0)
  {
    if |rest| < 4 then |rest|
    else
      var n := Length(rest[..4]);
      if n > MAX_FRAME_SIZE then 4 else if |rest| < 4 + n then |rest| else 4 + n
  }

  function ParsedAll<M>(wire: Wire<M>, rest: seq<byte>): (seq<M>, Option<FrameError>)
    decreases |rest|
  {
    match Parsed(wire, rest)
    case Failure(e) => ([], Some(e))
    case Success(None) => ([], None)
    case Success(Some(m)) =>
      var (ms, end) := ParsedAll(wire, rest[Consumed(rest)..]);
      ([m] + ms, end)
  }

  predicate AllFit<M>(wire: Wire<M>, ms: seq<M>) {
    forall i :: 0 <= i < |ms| ==> Fits(wire, ms[i])
  }

  /** The bytes of several frames. */
  function Stream<M>(wire: Wire<M>, ms: seq<M>): seq<byte>
    requires AllFit(wire, ms)
  {
    if ms == [] then [] else FrameOf(wire, ms[0]) + Stream(wire, ms[1..])
  }

  lemma FirstFrame<M(!new)>(wire: Wire<M>, norm: M -> M, m: M, tail: seq<byte>)
    requires Faithful(wire, norm) && Fits(wire, m)
    ensures Parsed(wire, FrameOf(wire, m) + tail) == Success(Some(norm(m)))
    ensures (FrameOf(wire, m) + tail)[Consumed(FrameOf(wire, m) + tail)..] == tail
  {
    var payload := wire.encode(m).value;
    var bytes := FrameOf(wire, m) + tail;
    LengthOfHeader(|payload|);
    assert bytes[..4] == Header(|payload|);
    assert bytes[4..4 + |payload|] == payload;
  }

  /** Reading frames followed by anything returns their messages, in normal form, then what
      follows. */
  lemma {:induction false} RoundTripThen<M(!new)>(wire: Wire<M>, norm: M -> M, ms: seq<M>, tail: seq<byte>)
    requires Faithful(wire, norm) && AllFit(wire, ms)
    ensures ParsedAll(wire, Stream(wire, ms) + tail).0 == Normal(norm, ms) + ParsedAll(wire, tail).0
    ensures ParsedAll(wire, Stream(wire, ms) + tail).1 == ParsedAll(wire, tail).1
    decreases |ms|
  {
    hide FrameOf, Parsed, Consumed;
    if ms == [] {
      assert Stream(wire, ms) + tail == tail;
    } else {
      var rest := Stream(wire, ms[1..]) + tail;
      RoundTripThen(wire, norm, ms[1..], tail);
      FirstFrame(wire, norm, ms[0], rest);
      assert Stream(wire, ms) + tail == FrameOf(wire, ms[0]) + rest;
      assert Normal(norm, ms) == [norm(ms[0])] + Normal(norm, ms[1..]);
    }
  }

  /** Exactly the messages written, in normal form, then a clean end. */
  lemma RoundTrip<M(!new)>(wire: Wire<M>, norm: M -> M, ms: seq<M>)
    requires Faithful(wire, norm) && AllFit(wire, ms)
    ensures ParsedAll(wire, Stream(wire, ms)) == (Normal(norm, ms), None)
  {
    RoundTripThen(wire, norm, ms, []);
    assert Stream(wire, ms) + [] == Stream(wire, ms);
    assert ParsedAll(wire, []) == ([], None);
    assert Normal(norm, ms) + [] == Normal(norm, ms);
    hide ParsedAll, Stream;
  }

  /** The bytes up to and including the first `k` frames. */
  function Edge<M>(wire: Wire<M>, ms: seq<M>, k: nat): nat
    requires AllFit(wire, ms) && k <= |ms|
  {
    |Stream(wire, ms[..k])|
  }

  /** How many whole frames lie within the first `cut` bytes. */
  predicate WholeFrames<M>(wire: Wire<M>, ms: seq<M>, cut: nat, k: nat)
    requires AllFit(wire, ms)
  {
    k <= |ms| && Edge(wire, ms, k) <= cut && (k < |ms| ==> cut < Edge(wire, ms, k + 1))
  }

  lemma {:induction false} StreamSplits<M>(wire: Wire<M>, ms: seq<M>, k: nat)
    requires AllFit(wire, ms) && k <= |ms|
    ensures Stream(wire, ms) == Stream(wire, ms[..k]) + Stream(wire, ms[k..])
    decreases k
  {
    if k > 0 {
      StreamSplits(wire, ms[1..], k - 1);
      assert ms[..k][1..] == ms[1..][..k - 1] && ms[1..][k - 1..] == ms[k..];
    } else {
      assert ms[k..] == ms;
    }
  }

  /** A part of one frame, shorter than it and not empty, is reported as truncated. */
  lemma CutFrame<M>(wire: Wire<M>, m: M, cut: nat)
    requires Fits(wire, m) && 0 < cut < |FrameOf(wire, m)|
    ensures ParsedAll(wire, FrameOf(wire, m)[..cut]) == ([], Some(Truncated))
  {
    var n := |wire.encode(m).value|;
    var bytes := FrameOf(wire, m)[..cut];
    LengthOfHeader(n);
    if cut >= 4 { assert bytes[..4] == Header(n); }
  }

  /** What is left of a cut stream behind its whole frames is nothing, or a part of one frame. */
  lemma CutTail<M>(wire: Wire<M>, ms: seq<M>, cut: nat, k: nat)
    requires AllFit(wire, ms) && cut <= |Stream(wire, ms)| && WholeFrames(wire, ms, cut, k)
    ensures Edge(wire, ms, k) <= |Stream(wire, ms)|
    ensures cut > Edge(wire, ms, k) ==> k < |ms| && cut - Edge(wire, ms, k) < |FrameOf(wire, ms[k])|
    ensures Stream(wire, ms)[..cut] == Stream(wire, ms[..k]) +
      if cut == Edge(wire, ms, k) then [] else FrameOf(wire, ms[k])[..cut - Edge(wire, ms, k)]
  {
    hide FrameOf;
    StreamSplits(wire, ms, k);
    if cut > Edge(wire, ms, k) {
      StreamSplits(wire, ms[..k + 1], k);
      assert ms[..k + 1][..k] == ms[..k] && ms[..k + 1][k..] == [ms[k]];
      assert Stream(wire, [ms[k]]) == FrameOf(wire, ms[k]);
      assert ms[k..][0] == ms[k];
      hide Stream, Edge, WholeFrames;
    }
  }

  lemma CutAt<M(!new)>(wire: Wire<M>, norm: M -> M, ms: seq<M>, cut: nat, k: nat)
    requires Faithful(wire, norm) && AllFit(wire, ms)
    requires cut <= |Stream(wire, ms)| && WholeFrames(wire, ms, cut, k)
    ensures ParsedAll(wire, Stream(wire, ms)[..cut])
         == (Normal(norm, ms[..k]), if cut == Edge(wire, ms, k) then None else Some(Truncated))
  {
    CutTail(wire, ms, cut, k);
    assert ParsedAll(wire, []) == ([], None);
    hide FrameOf, Consumed, Faithful, Stream, ParsedAll, Edge, WholeFrames;
    var rest := cut - Edge(wire, ms, k);
    var tail := if rest == 0 then [] else FrameOf(wire, ms[k])[..rest];
    RoundTripThen(wire, norm, ms[..k], tail);
    if rest > 0 { CutFrame(wire, ms[k], rest); }
    assert Normal(norm, ms[..k]) + [] == Normal(norm, ms[..k]);
  }

  /** Every cut has its number of whole frames. */
  lemma {:induction false} CutHasFrames<M>(wire: Wire<M>, ms: seq<M>, cut: nat, from: nat) returns (k: nat)
    requires AllFit(wire, ms) && from <= |ms| && Edge(wire, ms, from) <= cut
    ensures WholeFrames(wire, ms, cut, k)
    decreases |ms| - from
  {
    if from < |ms| && Edge(wire, ms, from + 1) <= cut {
      k := CutHasFrames(wire, ms, cut, from + 1);
    } else {
      k := from;
    }
  }

  /** A stream cut anywhere yields exactly the normal forms of the messages of its whole frames,
      and ends cleanly exactly when the cut falls between two frames; inside a frame it is a framing
      error. */
  lemma CutStream<M(!new)>(wire: Wire<M>, norm: M -> M, ms: seq<M>, cut: nat) returns (k: nat)
    requires Faithful(wire, norm) && AllFit(wire, ms) && cut <= |Stream(wire, ms)|
    ensures WholeFrames(wire, ms, cut, k)
    ensures ParsedAll(wire, Stream(wire, ms)[..cut])
         == (Normal(norm, ms[..k]), if cut == Edge(wire, ms, k) then None else Some(Truncated))
  {
    k := CutHasFrames(wire, ms, cut, 0);
    CutAt(wire, norm, ms, cut, k);
  }
}
