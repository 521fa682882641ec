/** How messages lie on a TCP stream: the send and receive helpers of remote/hws_alice.py:28-102 and
    remote/hws_bob.py:256-331, and the request framing of comm/src/lib.rs. */
module Wire {
  import opened Bytes
  import opened Maybe
  import opened Text
  import opened GcLinks
  import Utf8
  import opened Dialogue

  // ---- reading exactly ----

  /** `recv_exact`: reads arbitrary chunks until l bytes are there; not ok at end of stream. */
  method RecvExact(source: ByteSource, l: nat) returns (ok: bool, m: seq<byte>)
    modifies source`pending
    ensures ok <==> l <= |old(source.pending)|
    ensures ok ==> m == old(source.pending)[..l] && source.pending == old(source.pending)[l..]
    ensures !ok ==> m == old(source.pending) && source.pending == []
  {
    m := [];
    var buf := new byte[l];
    while |m| < l
      invariant |m| <= l && m + source.pending == old(source.pending)
      invariant fresh(buf) && buf.Length == l
      decreases l - |m|
    {
      var len := source.Read(buf, 0, l - |m|);
      if len == 0 {
        return false, m;
      }
      assert buf[..len] == buf[0..len];
      m := m + buf[..len];
    }
    ok := true;
  }

  // ---- frames ----

  const INT_LIMIT: int := 0x8000_0000
  const U32_RANGE: int := 0x1_0000_0000

  /** `struct.pack('i', v)`; None is the struct.error. */
  function PackInt(v: int): Option<seq<byte>> {
    if -INT_LIMIT <= v < INT_LIMIT then Some(ToLe(if v < 0 then v + U32_RANGE else v, 4)) else None
  }

  /** `struct.unpack('i', bs)`. */
  function UnpackInt(bs: seq<byte>): int
    requires |bs| == 4
  {
    var n := FromLe(bs);
    if n >= INT_LIMIT then n - U32_RANGE else n
  }

  lemma RangeOfInts()
    ensures Range(4) == U32_RANGE && Range(8) == TWO_TO_THE_64
  {
    assert Range(2) == 0x1_0000 && Range(4) == 0x1_0000_0000;
    assert Range(6) == 0x1_0000_0000_0000;
  }

  lemma IntOnTheWire(v: int)
    requires -INT_LIMIT <= v < INT_LIMIT
    ensures PackInt(v).Some? && |PackInt(v).value| == 4 && UnpackInt(PackInt(v).value) == v
  {
    hide ToLe, FromLe, Range;
    RangeOfInts();
    FromLeToLe(if v < 0 then v + U32_RANGE else v, 4);
  }

  lemma DoubleOnTheWire(bits: u64)
    ensures FromLe(ToLe(bits, 8)) == bits
  {
    hide ToLe, FromLe;
    RangeOfInts();
    FromLeToLe(bits, 8);
  }

  /** `sendc`, `send_i`, `send_d` and `send_data`; None where they raise. The length byte of a string
      counts characters, not bytes. */
  function Frame(m: Message): Option<seq<byte>> {
    match m
    case Text(s) => if |s| < 256 then Some([|s|] + Utf8.Encode(s)) else None
    case Integer(i) => PackInt(i)
    case Double(bits) => Some(ToLe(bits, 8))
    case Data(b) => if PackInt(|b|).Some? then Some(PackInt(|b|).value + b) else None
  }

  /** What one receive takes off the stream; None while it has to wait for more. */
  datatype Taken = Taken(body: seq<byte>, rest: seq<byte>)

  function Take(t: Type, stream: seq<byte>): Option<Taken> {
    match t
    case Str => if stream == [] then None else TakeBytes(stream[0], stream[1..])
    case Int => TakeBytes(4, stream)
    case Dbl => TakeBytes(8, stream)
    case Blob => if |stream| < 4 then None else TakeBytes(UnpackInt(stream[..4]), stream[4..])
  }

  /** A negative count reads nothing. */
  function TakeBytes(l: int, stream: seq<byte>): Option<Taken> {
    if l > |stream| then None
    else if l <= 0 then Some(Taken([], stream))
    else Some(Taken(stream[..l], stream[l..]))
  }

  /** What `rcvc`, `rcv_i`, `rcv_d` and `rcv_data` make of it. */
  function Value(t: Type, body: seq<byte>): Option<Message> {
    match t
    case Str => (match Utf8.DecodeStrict(body) case None => None case Some(s) => Some(Text(Strip(s))))
    case Int => if |body| == 4 then Some(Integer(UnpackInt(body))) else None
    case Dbl => if |body| == 8 && FromLe(body) < TWO_TO_THE_64 then Some(Double(FromLe(body))) else None
    case Blob => Some(Data(body))
  }

  /** Messages every helper can send. */
  predicate Sendable(m: Message) {
    match m
    case Text(s) => |s| < 256 && Utf8.Ascii(s)
    case Integer(i) => -INT_LIMIT <= i < INT_LIMIT
    case Double(_) => true
    case Data(b) => |b| < INT_LIMIT
  }

  function Received(m: Message): Message {
    match m
    case Text(s) => Text(Strip(s))
    case _ => m
  }

  /** A frame is taken off exactly, with any bytes behind it, and read as what was sent. */
  predicate ReadsBack(m: Message, rest: seq<byte>) {
    Frame(m).Some? &&
    var taken := Take(m.Typed(), Frame(m).value + rest);
    taken.Some? && taken.value.rest == rest && Value(m.Typed(), taken.value.body) == Some(Received(m))
  }

  lemma OneMessage(m: Message, rest: seq<byte>)
    requires Sendable(m)
    ensures ReadsBack(m, rest)
  {
    match m
    case Text(s) => OneText(s, rest);
    case Integer(i) => OneInteger(i, rest);
    case Double(bits) => OneDouble(bits, rest);
    case Data(b) => OneBlob(b, rest);
  }

  lemma OneText(s: string, rest: seq<byte>)
    requires |s| < 256 && Utf8.Ascii(s)
    ensures ReadsBack(Text(s), rest)
  {
    Utf8.EncodedLength(s);
    Utf8.DecodeEncode(s);
    hide Utf8.Encode, Utf8.DecodeStrict, Strip;
    assert ([|s|] + Utf8.Encode(s) + rest)[1..] == Utf8.Encode(s) + rest;
    assert TakeBytes(|s|, Utf8.Encode(s) + rest) == Some(Taken(Utf8.Encode(s), rest));
  }

  lemma OneInteger(i: int, rest: seq<byte>)
    requires -INT_LIMIT <= i < INT_LIMIT
    ensures ReadsBack(Integer(i), rest)
  {
    IntOnTheWire(i);
    hide PackInt, UnpackInt;
    assert TakeBytes(4, PackInt(i).value + rest) == Some(Taken(PackInt(i).value, rest));
  }

  lemma OneDouble(bits: u64, rest: seq<byte>)
    ensures ReadsBack(Double(bits), rest)
  {
    DoubleOnTheWire(bits);
    hide ToLe, FromLe;
    assert TakeBytes(8, ToLe(bits, 8) + rest) == Some(Taken(ToLe(bits, 8), rest));
  }

  lemma OneBlob(b: seq<byte>, rest: seq<byte>)
    requires |b| < INT_LIMIT
    ensures ReadsBack(Data(b), rest)
  {
    IntOnTheWire(|b|);
    hide PackInt, UnpackInt;
    var head := PackInt(|b|).value;
    assert (head + b + rest)[..4] == head && (head + b + rest)[4..] == b + rest;
    assert TakeBytes(|b|, b + rest) == Some(Taken(b, rest));
  }

  // ---- whole streams ----

  function Stream(ms: seq<Message>): seq<byte>
    requires forall m :: m in ms ==> Sendable(m)
  {
    if ms == [] then []
    else
      OneMessage(ms[0], []);
      Frame(ms[0]).value + Stream(ms[1..])
  }

  /** The values read off a stream by receives of the given types; None where one is undefined. */
  function ReadAll(types: seq<Type>, stream: seq<byte>): Option<seq<Message>>
    decreases |types|
  {
    if types == [] then (if stream == [] then Some([]) else None)
    else
      var taken := Take(types[0], stream);
      if taken.None? then None
      else
        var value, others := Value(types[0], taken.value.body), ReadAll(types[1..], taken.value.rest);
        if value.None? || others.None? then None else Some([value.value] + others.value)
  }

  function TypesOf(ms: seq<Message>): seq<Type> {
    if ms == [] then [] else [ms[0].Typed()] + TypesOf(ms[1..])
  }

  function AllReceived(ms: seq<Message>): seq<Message> {
    if ms == [] then [] else [Received(ms[0])] + AllReceived(ms[1..])
  }

  /** A dialogue that reads every message at its own type reads exactly the messages sent: untagged
      frames on a byte stream behave like a queue of typed values. */
  lemma {:induction false} StreamIsAQueue(ms: seq<Message>)
    requires forall m :: m in ms ==> Sendable(m)
    ensures ReadAll(TypesOf(ms), Stream(ms)) == Some(AllReceived(ms))
  {
    if ms == [] {
    } else {
      OneMessage(ms[0], Stream(ms[1..]));
      StreamIsAQueue(ms[1..]);
      assert TypesOf(ms)[1..] == TypesOf(ms[1..]);
    }
  }

  /** A string keeps the stream in step iff it is ASCII: its length byte counts characters. */
  lemma TextInStepIffAscii(s: string, rest: seq<byte>)
    requires |s| < 256
    ensures var taken := Take(Str, Frame(Text(s)).value + rest);
            taken.Some? && (taken.value.rest == rest <==> Utf8.Ascii(s))
  {
    Utf8.EncodedLength(s);
    var whole := [|s|] + Utf8.Encode(s) + rest;
    assert whole[1..] == Utf8.Encode(s) + rest;
    assert |(Utf8.Encode(s) + rest)[|s|..]| == |Utf8.Encode(s)| + |rest| - |s|;
    if Utf8.Ascii(s) {
      assert (Utf8.Encode(s) + rest)[|s|..] == rest;
    }
  }

  // ---- the node's requests ----

  datatype Request = Start | Stop | PollHwReady

  datatype Response = Done | DidNothing | HwReady | HwNotReady

  function RequestIndex(r: Request): nat {
    match r case Start => 0 case Stop => 1 case PollHwReady => 2
  }

  function ResponseIndex(r: Response): nat {
    match r case Done => 0 case DidNothing => 1 case HwReady => 2 case HwNotReady => 3
  }

  function RequestOf(index: nat): Option<Request> {
    if index == 0 then Some(Start) else if index == 1 then Some(Request.Stop)
    else if index == 2 then Some(PollHwReady) else None
  }

  function ResponseOf(index: nat): Option<Response> {
    if index == 0 then Some(Done) else if index == 1 then Some(DidNothing)
    else if index == 2 then Some(HwReady) else if index == 3 then Some(HwNotReady) else None
  }

  /** `write_message` of an enum without fields: bincode writes its index as one byte. */
  function WriteMessage(index: nat): seq<byte>
    requires index < 251
  {
    ToLe(1, 4) + [index]
  }

  /** The framing of `read_message`: not ok at end of stream. */
  method ReadMessage(source: ByteSource) returns (ok: bool, payload: seq<byte>)
    modifies source`pending
    ensures ok <==> HoldsMessage(old(source.pending))
    ensures ok ==> payload == Payload(old(source.pending))
    ensures ok ==> source.pending == old(source.pending)[4 + |payload|..]
  {
    var head;
    ok, head := RecvExact(source, 4);
    if !ok {
      return false, [];
    }
    ok, payload := RecvExact(source, FromLe(head));
  }

  predicate HoldsMessage(stream: seq<byte>) {
    |stream| >= 4 && |stream| >= 4 + FromLe(stream[..4])
  }

  function Payload(stream: seq<byte>): seq<byte>
    requires HoldsMessage(stream)
  {
    stream[4..4 + FromLe(stream[..4])]
  }

  /** Every request and response comes back, and the stream is left where the next one starts. */
  lemma RequestsComeBack(r: Request, rest: seq<byte>)
    ensures var stream := WriteMessage(RequestIndex(r)) + rest;
            && HoldsMessage(stream) && |Payload(stream)| == 1
            && RequestOf(Payload(stream)[0]) == Some(r) && stream[5..] == rest
  {
    OneBytePayload(RequestIndex(r), rest);
  }

  lemma ResponsesComeBack(r: Response, rest: seq<byte>)
    ensures var stream := WriteMessage(ResponseIndex(r)) + rest;
            && HoldsMessage(stream) && |Payload(stream)| == 1
            && ResponseOf(Payload(stream)[0]) == Some(r) && stream[5..] == rest
  {
    OneBytePayload(ResponseIndex(r), rest);
  }

  lemma OneBytePayload(index: nat, rest: seq<byte>)
    requires index < 251
    ensures var stream := WriteMessage(index) + rest;
            |stream| == 5 + |rest| && FromLe(stream[..4]) == 1 && stream[4] == index && stream[5..] == rest
  {
    RangeOfInts();
    FromLeToLe(1, 4);
    var stream := WriteMessage(index) + rest;
    assert stream[..4] == ToLe(1, 4);
  }
}
