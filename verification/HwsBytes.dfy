/** The dialogue on its real connection: frames without type marks, whose bytes arrive in pieces of
    any size while both sides run (remote/hws_alice.py:28-102 and remote/hws_bob.py:256-331). */
module HwsBytes {
  import opened Bytes
  import opened Maybe
  import opened Runs
  import opened Text
  import opened Wire
  import opened Dialogue
  import opened HwsCommands

  // ---- one direction ----

  /** One direction of the connection: the messages sent so far, their bytes still on the way, the
      bytes that have arrived and were not read, and the messages read so far. */
  datatype Pipe = Pipe(sent: seq<Message>, flying: seq<byte>, arrived: seq<byte>, read: seq<Message>)

  const EMPTY := Pipe([], [], [], [])

  function Push(p: Pipe, m: Message): Option<Pipe> {
    if Sendable(m) && Frame(m).Some?
    then Some(p.(sent := p.sent + [m], flying := p.flying + Frame(m).value))
    else None
  }

  function Arrive(p: Pipe, n: nat): Option<Pipe> {
    if 0 < n <= |p.flying|
    then Some(p.(flying := p.flying[n..], arrived := p.arrived + p.flying[..n]))
    else None
  }

  datatype Reading = Waits | Raises | Reads(m: Message, p: Pipe)

  /** A receive at a type: it waits until the bytes it asks for are there and makes of them what it can. */
  function Pull(t: Type, p: Pipe): Reading {
    var taken := Take(t, p.arrived);
    if taken.None? then Waits
    else
      var value := Value(t, taken.value.body);
      if value.None? then Raises
      else Reads(value.value, p.(arrived := taken.value.rest, read := p.read + [value.value]))
  }

  // ---- both sides ----

  datatype Link = Link(a: Alice, b: Bob, toBob: Pipe, toAlice: Pipe)

  datatype Move =
    | Decides(step: Step)
    | AlicePacks(m: Message) | BobPacks(m: Message)
    | ReachesAlice(n: nat) | ReachesBob(n: nat)
    | AliceReads | BobReads

  predicate IsDecision(step: Step) {
    step.ChooseLeft? || step.ChooseRight? || step.Iterate? || step.Leave?
  }

  /** The type at which Bob reads next. */
  function ReadsAt(b: Bob): Type {
    if b.Recv? then b.t else Str
  }

  function Act(d: Dispatch, c: Link, move: Move): Option<Link> {
    match move
    case Decides(step) =>
      var e := Apply(d, Config(c.a, c.b, [], []), step);
      if IsDecision(step) && e.Some? then Some(c.(a := e.value.a)) else None
    case AlicePacks(m) =>
      var p := Push(c.toBob, m);
      if ((c.a.Say? && m == Text(c.a.word)) || (c.a.Put? && m.Typed() == c.a.t)) && p.Some?
      then Some(c.(a := c.a.k, toBob := p.value)) else None
    case BobPacks(m) =>
      var p := Push(c.toAlice, m);
      if c.b.Send? && m.Typed() == c.b.t && p.Some? then Some(c.(b := c.b.k, toAlice := p.value)) else None
    case ReachesAlice(n) =>
      var p := Arrive(c.toAlice, n);
      if p.Some? then Some(c.(toAlice := p.value)) else None
    case ReachesBob(n) =>
      var p := Arrive(c.toBob, n);
      if p.Some? then Some(c.(toBob := p.value)) else None
    case AliceReads =>
      if !c.a.Get? then None
      else (match Pull(c.a.t, c.toAlice)
            case Reads(m, p) => Some(c.(a := c.a.k, toAlice := p))
            case _ => None)
    case BobReads =>
      if !Receiving(c.b) then None
      else (match Pull(ReadsAt(c.b), c.toBob)
            case Reads(m, p) =>
              var b := Deliver(d, c.b, m);
              if b.Some? then Some(c.(b := b.value, toBob := p)) else None
            case _ => None)
  }

  /** The connection as a transition system. */
  function Acts(d: Dispatch): (Link, Move) -> Option<Link> {
    (c: Link, move: Move) => Act(d, c, move)
  }

  // ---- what a pipe carries ----

  ghost predicate AllSendable(ms: seq<Message>) {
    forall m :: m in ms ==> Sendable(m)
  }

  /** What was read is what was sent first, and the bytes underway are the frames of the rest. */
  ghost predicate Carries(p: Pipe) {
    && |p.read| <= |p.sent| && AllSendable(p.sent)
    && p.read == AllReceived(p.sent[..|p.read|])
    && p.arrived + p.flying == Stream(p.sent[|p.read|..])
  }

  /** The messages underway, as they will be read. */
  ghost function Queue(p: Pipe): seq<Message>
    requires Carries(p)
  {
    AllReceived(p.sent[|p.read|..])
  }

  lemma {:induction false} StreamSnoc(ms: seq<Message>, m: Message)
    requires AllSendable(ms) && Sendable(m)
    ensures Frame(m).Some? && Stream(ms + [m]) == Stream(ms) + Frame(m).value
  {
    hide Frame, Sendable, Take, Value;
    OneMessage(m, []);
    if ms == [] {
      assert ms + [m] == [m] && [m][1..] == [];
    } else {
      OneMessage(ms[0], []);
      assert (ms + [m])[1..] == ms[1..] + [m];
      StreamSnoc(ms[1..], m);
    }
  }

  lemma {:induction false} AllReceivedAppend(ms: seq<Message>, ns: seq<Message>)
    ensures AllReceived(ms + ns) == AllReceived(ms) + AllReceived(ns) && |AllReceived(ms)| == |ms|
  {
    hide Received;
    if ms == [] {
      assert ms + ns == ns;
    } else {
      assert (ms + ns)[1..] == ms[1..] + ns;
      AllReceivedAppend(ms[1..], ns);
    }
  }

  lemma AllReceivedSnoc(ms: seq<Message>, m: Message)
    ensures AllReceived(ms + [m]) == AllReceived(ms) + [Received(m)]
  {
    hide Received;
    AllReceivedAppend(ms, [m]);
    assert [m][1..] == [];
  }

  lemma PushKeeps(p: Pipe, m: Message)
    requires Carries(p) && Push(p, m).Some?
    ensures Carries(Push(p, m).value) && Queue(Push(p, m).value) == Queue(p) + [Received(m)]
  {
    hide Frame, Sendable, Received, Stream, AllReceived;
    var n, q := |p.read|, Push(p, m).value;
    StreamSnoc(p.sent[n..], m);
    AllReceivedSnoc(p.sent[n..], m);
    assert q.sent[n..] == p.sent[n..] + [m] && q.sent[..n] == p.sent[..n];
    assert q.arrived + q.flying == p.arrived + p.flying + Frame(m).value;
  }

  lemma ArriveKeeps(p: Pipe, n: nat)
    requires Carries(p) && Arrive(p, n).Some?
    ensures Carries(Arrive(p, n).value) && Queue(Arrive(p, n).value) == Queue(p)
  {
    hide Sendable, Received, Stream, AllReceived;
    var q := Arrive(p, n).value;
    assert p.flying == p.flying[..n] + p.flying[n..];
    assert q.arrived + q.flying == p.arrived + p.flying;
  }

  /** Bytes still on the way do not change what a receive takes once it has all it asks for. */
  lemma TakeIsSteady(t: Type, stream: seq<byte>, more: seq<byte>)
    requires Take(t, stream).Some?
    ensures var taken := Take(t, stream).value;
            Take(t, stream + more) == Some(Taken(taken.body, taken.rest + more))
  {
    hide UnpackInt;
    match t
    case Str => assert (stream + more)[1..] == stream[1..] + more; TakeBytesIsSteady(stream[0], stream[1..], more);
    case Int => TakeBytesIsSteady(4, stream, more);
    case Dbl => TakeBytesIsSteady(8, stream, more);
    case Blob =>
      assert (stream + more)[..4] == stream[..4] && (stream + more)[4..] == stream[4..] + more;
      TakeBytesIsSteady(UnpackInt(stream[..4]), stream[4..], more);
  }

  lemma TakeBytesIsSteady(l: int, stream: seq<byte>, more: seq<byte>)
    requires TakeBytes(l, stream).Some?
    ensures var taken := TakeBytes(l, stream).value;
            TakeBytes(l, stream + more) == Some(Taken(taken.body, taken.rest + more))
  {
    if l > 0 {
      assert (stream + more)[..l] == stream[..l] && (stream + more)[l..] == stream[l..] + more;
    }
  }

  /** Every receive asks for a byte at least. */
  lemma NothingFromNothing(t: Type)
    ensures Take(t, []).None?
  {
  }

  /** A receive at the type of the next message never raises, and once it has its bytes it reads that
      message and leaves the others. */
  lemma PullReads(t: Type, p: Pipe)
    requires Carries(p) && (Queue(p) != [] ==> Queue(p)[0].Typed() == t)
    ensures !Pull(t, p).Raises?
    ensures Pull(t, p).Reads? ==>
              && Queue(p) != [] && Pull(t, p).m == Queue(p)[0]
              && Carries(Pull(t, p).p) && Queue(Pull(t, p).p) == Queue(p)[1..]
    ensures Queue(p) != [] && p.flying == [] ==> Pull(t, p).Reads?
  {
    hide Take, Value, Frame, Sendable, Received;
    var n := |p.read|;
    var rest := p.sent[n..];
    if rest == [] {
      assert p.arrived == [];
      NothingFromNothing(t);
    } else {
      ReadFirst(t, p.arrived, p.flying, rest);
      AllReceivedSnoc(p.sent[..n], p.sent[n]);
      assert p.sent[..n + 1] == p.sent[..n] + [p.sent[n]];
      assert p.sent[n + 1..] == rest[1..];
    }
  }

  lemma ReadFirst(t: Type, arrived: seq<byte>, flying: seq<byte>, ms: seq<Message>)
    requires ms != [] && AllSendable(ms) && Received(ms[0]).Typed() == t
    requires arrived + flying == Stream(ms)
    ensures var taken := Take(t, arrived);
            && (flying == [] ==> taken.Some?)
            && (taken.Some? ==> taken.value.rest + flying == Stream(ms[1..])
                                && Value(t, taken.value.body) == Some(Received(ms[0])))
  {
    hide Take, Value, Frame, Sendable;
    ReceivedTyped(ms[0]);
    OneMessage(ms[0], Stream(ms[1..]));
    OneMessage(ms[0], []);
    assert flying == [] ==> arrived == Stream(ms);
    if Take(t, arrived).Some? {
      TakeIsSteady(t, arrived, flying);
    }
  }

  lemma ReceivedTyped(m: Message)
    ensures Received(m).Typed() == m.Typed()
  {
  }

  // ---- plain words ----

  predicate Printable(c: char) {
    '!' <= c <= '~'
  }

  /** A word that reaches the other side as it was sent. */
  predicate Plain(w: string) {
    && 0 < |w| < 256 && Printable(w[0]) && Printable(w[|w| - 1])
    && forall c :: c in w ==> c == ' ' || Printable(c)
  }

  lemma PlainWordsArrive(w: string)
    requires Plain(w)
    ensures Sendable(Text(w)) && Received(Text(w)) == Text(w)
  {
    assert TrimStart(w, IsSpace) == w;
    assert TrimEnd(w, IsSpace) == w;
  }

  predicate Speaks(a: Alice) {
    match a
    case End => true
    case Say(w, k) => Plain(w) && Speaks(k)
    case Put(_, k) => Speaks(k)
    case Get(_, k) => Speaks(k)
    case Either(l, r) => Speaks(l) && Speaks(r)
    case Many(body, k) => Speaks(body) && Speaks(k)
  }

  lemma {:induction false} SpeaksThen(p: Alice, q: Alice)
    requires Speaks(p) && Speaks(q)
    ensures Speaks(ThenA(p, q))
  {
    hide Plain;
    match p
    case End =>
    case Say(_, k) => SpeaksThen(k, q);
    case Put(_, k) => SpeaksThen(k, q);
    case Get(_, k) => SpeaksThen(k, q);
    case Either(l, r) => SpeaksThen(l, q); SpeaksThen(r, q);
    case Many(_, k) => SpeaksThen(k, q);
  }

  // ---- the bytes refine the messages ----

  ghost predicate Whole(c: Link) {
    Carries(c.toBob) && Carries(c.toAlice) && Speaks(c.a)
  }

  /** The dialogue as the two sides see it. */
  ghost function View(c: Link): Config
    requires Whole(c)
  {
    Config(c.a, c.b, Queue(c.toBob), Queue(c.toAlice))
  }

  /** A move of the bytes is a step of the messages, or the arrival of bytes, which is none. */
  ghost function StepOf(c: Link, move: Move): Option<Step> {
    match move
    case Decides(step) => Some(step)
    case AlicePacks(m) => Some(AliceSends(Received(m)))
    case BobPacks(m) => Some(BobSends(Received(m)))
    case ReachesAlice(_) => None
    case ReachesBob(_) => None
    case AliceReads => Some(AliceReceives)
    case BobReads => Some(BobReceives)
  }

  ghost predicate Refines(d: Dispatch, c: Link, move: Move) {
    var e := Act(d, c, move);
    Whole(c) && e.Some? && Whole(e.value) &&
    match StepOf(c, move)
    case None => View(e.value) == View(c)
    case Some(step) => Apply(d, View(c), step) == Some(View(e.value))
  }

  lemma MoveRefines(d: Dispatch, c: Link, move: Move)
    requires Whole(c) && !TypeError(d, View(c)) && Act(d, c, move).Some?
    ensures Refines(d, c, move)
  {
    hide Act, Refines, Whole, View, TypeError;
    match move
    case Decides(step) => DecisionRefines(d, c, step);
    case AlicePacks(m) => AlicePacksRefines(d, c, m);
    case BobPacks(m) => BobPacksRefines(d, c, m);
    case ReachesAlice(n) => ArrivalRefines(d, c, move);
    case ReachesBob(n) => ArrivalRefines(d, c, move);
    case AliceReads => AliceReadsRefines(d, c);
    case BobReads => BobReadsRefines(d, c);
  }

  lemma ArrivalRefines(d: Dispatch, c: Link, move: Move)
    requires Whole(c) && Act(d, c, move).Some? && (move.ReachesAlice? || move.ReachesBob?)
    ensures Refines(d, c, move)
  {
    hide Carries, Queue, Arrive, Apply, Speaks;
    ArriveKeeps(if move.ReachesAlice? then c.toAlice else c.toBob, move.n);
  }

  lemma AliceReadsRefines(d: Dispatch, c: Link)
    requires Whole(c) && !TypeError(d, View(c)) && Act(d, c, AliceReads).Some?
    ensures Refines(d, c, AliceReads)
  {
    hide Carries, Queue, Pull, Deliver;
    PullReads(c.a.t, c.toAlice);
  }

  lemma DecisionRefines(d: Dispatch, c: Link, step: Step)
    requires Whole(c) && Act(d, c, Decides(step)).Some?
    ensures Refines(d, c, Decides(step))
  {
    hide Plain, Carries, Queue;
    if step.Iterate? {
      SpeaksThen(c.a.body, c.a);
    }
  }

  lemma AlicePacksRefines(d: Dispatch, c: Link, m: Message)
    requires Whole(c) && Act(d, c, AlicePacks(m)).Some?
    ensures Refines(d, c, AlicePacks(m))
  {
    hide Plain, Received, Carries, Queue, Push;
    PushKeeps(c.toBob, m);
    ReceivedTyped(m);
    if c.a.Say? {
      PlainWordsArrive(c.a.word);
    }
  }

  lemma BobPacksRefines(d: Dispatch, c: Link, m: Message)
    requires Whole(c) && Act(d, c, BobPacks(m)).Some?
    ensures Refines(d, c, BobPacks(m))
  {
    hide Plain, Received, Carries, Queue, Push;
    PushKeeps(c.toAlice, m);
    ReceivedTyped(m);
  }

  lemma BobReadsAt(d: Dispatch, c: Link)
    requires Whole(c) && !TypeError(d, View(c)) && Receiving(c.b)
    ensures Queue(c.toBob) != [] ==> Queue(c.toBob)[0].Typed() == ReadsAt(c.b)
  {
    hide Carries, Queue;
    if Queue(c.toBob) != [] {
      assert Deliver(d, c.b, Queue(c.toBob)[0]).Some?;
    }
  }

  lemma BobReadsRefines(d: Dispatch, c: Link)
    requires Whole(c) && !TypeError(d, View(c)) && Act(d, c, BobReads).Some?
    ensures Refines(d, c, BobReads)
  {
    hide Carries, Queue, Pull, Deliver;
    BobReadsAt(d, c);
    PullReads(ReadsAt(c.b), c.toBob);
  }

  // ---- every run ----

  /** What holds after every move of a compatible dialogue. */
  ghost predicate Sound(d: Dispatch, c: Link, final: Bob) {
    Whole(c) && Inv(d, View(c), final)
  }

  lemma MoveKeepsSound(d: Dispatch, c: Link, move: Move, final: Bob)
    requires Sound(d, c, final) && Act(d, c, move).Some?
    ensures Sound(d, Act(d, c, move).value, final) && Refines(d, c, move)
  {
    hide Act, Inv, Whole, View;
    NoTypeError(d, View(c), final);
    MoveRefines(d, c, move);
    if StepOf(c, move).Some? {
      StepKeepsInv(d, View(c), StepOf(c, move).value, final);
    }
  }

  lemma ActsKeepSound(d: Dispatch, final: Bob)
    ensures Preserves(Acts(d), c => Sound(d, c, final))
  {
    hide Act, Sound;
    forall c, move | Sound(d, c, final) && Act(d, c, move).Some? ensures Sound(d, Act(d, c, move).value, final) {
      MoveKeepsSound(d, c, move, final);
    }
  }

  /** A receive that is due reads bytes that were not written for it. */
  predicate Misreads(d: Dispatch, c: Link) {
    || (c.a.Get? && Pull(c.a.t, c.toAlice).Raises?)
    || (Receiving(c.b) && (match Pull(ReadsAt(c.b), c.toBob)
                           case Waits => false
                           case Raises => true
                           case Reads(m, _) => Deliver(d, c.b, m).None?))
  }

  /** Every value read is the value sent, none is lost and none comes out of turn. */
  predicate InOrder(p: Pipe) {
    p.read <= AllReceived(p.sent)
  }

  /** Alice is through, Bob stands at `final`, and all that was sent has been read. */
  predicate Over(c: Link, final: Bob) {
    && c.a == End && c.b == final
    && c.toBob.flying == c.toBob.arrived == [] && c.toBob.read == AllReceived(c.toBob.sent)
    && c.toAlice.flying == c.toAlice.arrived == [] && c.toAlice.read == AllReceived(c.toAlice.sent)
  }

  lemma CarriesInOrder(p: Pipe)
    requires Carries(p)
    ensures InOrder(p)
    ensures Queue(p) == [] ==> p.read == AllReceived(p.sent) && p.arrived == p.flying == []
  {
    hide Received, Frame, Sendable;
    var n := |p.read|;
    assert p.sent == p.sent[..n] + p.sent[n..];
    AllReceivedAppend(p.sent[..n], p.sent[n..]);
    AllReceivedAppend(p.sent[n..], []);
    if Queue(p) == [] {
      assert p.sent[n..] == [];
      assert |p.arrived + p.flying| == 0;
    }
  }

  lemma SoundNeverMisreads(d: Dispatch, c: Link, final: Bob)
    requires Sound(d, c, final)
    ensures !Misreads(d, c)
  {
    hide Inv, Carries, Queue, Pull, Deliver;
    NoTypeError(d, View(c), final);
    if c.a.Get? {
      PullReads(c.a.t, c.toAlice);
    }
    if Receiving(c.b) {
      BobReadsAt(d, c);
      PullReads(ReadsAt(c.b), c.toBob);
    }
  }

  // ---- the end stays in reach ----

  /** The moves, one or two, by which the bytes take a step of the messages. */
  ghost predicate Takes(d: Dispatch, c: Link, moves: seq<Move>, step: Step, final: Bob) {
    && Sound(d, c, final) && Run(Acts(d), c, moves).Some? && Sound(d, Run(Acts(d), c, moves).value, final)
    && Apply(d, View(c), step) == Some(View(Run(Acts(d), c, moves).value))
  }

  lemma OneMoveTakes(d: Dispatch, c: Link, move: Move, step: Step, final: Bob)
    requires Sound(d, c, final) && Act(d, c, move).Some? && StepOf(c, move) == Some(step)
    ensures Takes(d, c, [move], step, final)
  {
    hide Act, Sound, Whole, View, StepOf, Apply;
    MoveKeepsSound(d, c, move, final);
    RunOne(Acts(d), c, move);
  }

  lemma SamplesArrive(t: Type)
    ensures Sendable(Sample(t)) && Frame(Sample(t)).Some? && Received(Sample(t)) == Sample(t)
  {
    OneMessage(Sample(t), []);
  }

  lemma AliceSendsOnBytes(d: Dispatch, c: Link, step: Step, final: Bob)
    requires Sound(d, c, final) && step.AliceSends? && Apply(d, View(c), step).Some?
    requires step.m == if c.a.Say? then Text(c.a.word) else Sample(c.a.t)
    ensures Takes(d, c, [AlicePacks(step.m)], step, final)
  {
    hide Frame, Sendable, Received, Plain, Carries, Queue, Takes, Inv;
    if c.a.Say? {
      PlainWordsArrive(c.a.word);
    } else {
      SamplesArrive(c.a.t);
    }
    OneMessage(step.m, []);
    OneMoveTakes(d, c, AlicePacks(step.m), step, final);
  }

  lemma BobSendsOnBytes(d: Dispatch, c: Link, step: Step, final: Bob)
    requires Sound(d, c, final) && step.BobSends? && Apply(d, View(c), step).Some?
    requires step.m == Sample(c.b.t)
    ensures Takes(d, c, [BobPacks(step.m)], step, final)
  {
    hide Frame, Sendable, Received, Plain, Carries, Queue, Takes, Inv;
    SamplesArrive(c.b.t);
    OneMoveTakes(d, c, BobPacks(step.m), step, final);
  }

  /** Bytes on the way to both sides arrive. */
  lemma AllArrive(d: Dispatch, c: Link, final: Bob) returns (moves: seq<Move>, e: Link)
    requires Sound(d, c, final)
    ensures Run(Acts(d), c, moves) == Some(e) && Sound(d, e, final) && View(e) == View(c)
    ensures e.toBob.flying == e.toAlice.flying == []
  {
    hide Sound, Inv, Whole, View;
    var m1, c1 := ArriveOne(d, c, ReachesBob(|c.toBob.flying|), final);
    var m2, c2 := ArriveOne(d, c1, ReachesAlice(|c1.toAlice.flying|), final);
    moves, e := m1 + m2, c2;
    RunThen(Acts(d), c, m1, m2);
  }

  lemma ArriveOne(d: Dispatch, c: Link, move: Move, final: Bob) returns (moves: seq<Move>, e: Link)
    requires Sound(d, c, final)
    requires move == ReachesBob(|c.toBob.flying|) || move == ReachesAlice(|c.toAlice.flying|)
    ensures Run(Acts(d), c, moves) == Some(e) && Sound(d, e, final) && View(e) == View(c)
    ensures if move.ReachesBob? then e.toBob.flying == [] && e.toAlice == c.toAlice
            else e.toAlice.flying == [] && e.toBob == c.toBob
  {
    hide Sound, Inv, Whole, View;
    moves, e := [], c;
    if move.n > 0 {
      MoveKeepsSound(d, c, move, final);
      moves, e := [move], Act(d, c, move).value;
      RunOne(Acts(d), c, move);
    }
  }

  lemma ReadsOnBytes(d: Dispatch, c: Link, step: Step, final: Bob)
    requires Sound(d, c, final) && Apply(d, View(c), step).Some?
    requires c.toBob.flying == c.toAlice.flying == [] && (step.AliceReceives? || step.BobReceives?)
    ensures Takes(d, c, [if step.AliceReceives? then AliceReads else BobReads], step, final)
  {
    hide Carries, Queue, Takes, Inv, Pull;
    NoTypeError(d, View(c), final);
    if step.AliceReceives? {
      PullReads(c.a.t, c.toAlice);
      OneMoveTakes(d, c, AliceReads, step, final);
    } else {
      BobReadsAt(d, c);
      PullReads(ReadsAt(c.b), c.toBob);
      OneMoveTakes(d, c, BobReads, step, final);
    }
  }

  lemma DecidesOnBytes(d: Dispatch, c: Link, step: Step, final: Bob)
    requires Sound(d, c, final) && Apply(d, View(c), step).Some? && IsDecision(step)
    ensures Takes(d, c, [Decides(step)], step, final)
  {
    hide Carries, Queue, Takes, Inv;
    OneMoveTakes(d, c, Decides(step), step, final);
  }

  /** Whatever step brings the dialogue forward, the bytes can take it. */
  lemma Forward(d: Dispatch, c: Link, final: Bob) returns (moves: seq<Move>, e: Link)
    requires Sound(d, c, final) && !final.Send? && !Finished(View(c), final)
    ensures Run(Acts(d), c, moves) == Some(e) && Sound(d, e, final) && Progress(View(c), View(e))
  {
    hide Inv, Carries, Queue, Act, Progress, Frame, Sendable, Received, Plain;
    var step := NeverStuck(d, View(c), final);
    if step.AliceSends? {
      AliceSendsOnBytes(d, c, step, final);
      moves := [AlicePacks(step.m)];
    } else if step.BobSends? {
      BobSendsOnBytes(d, c, step, final);
      moves := [BobPacks(step.m)];
    } else if step.AliceReceives? || step.BobReceives? {
      var first, middle := AllArrive(d, c, final);
      ReadsOnBytes(d, middle, step, final);
      var last := [if step.AliceReceives? then AliceReads else BobReads];
      RunThen(Acts(d), c, first, last);
      moves := first + last;
    } else {
      DecidesOnBytes(d, c, step, final);
      moves := [Decides(step)];
    }
    e := Run(Acts(d), c, moves).value;
  }

  lemma {:induction false} EndInReach(d: Dispatch, c: Link, final: Bob) returns (moves: seq<Move>)
    requires Sound(d, c, final) && !final.Send?
    ensures Run(Acts(d), c, moves).Some? && Over(Run(Acts(d), c, moves).value, final)
    decreases Size(c.a), |Queue(c.toBob)|, if Queue(c.toAlice) == [] then 1 else 0
  {
    hide Inv, Carries, Queue, Act;
    if Finished(View(c), final) {
      CarriesInOrder(c.toBob);
      CarriesInOrder(c.toAlice);
      moves := [];
    } else {
      var first, e := Forward(d, c, final);
      var rest := EndInReach(d, e, final);
      RunThen(Acts(d), c, first, rest);
      moves := first + rest;
    }
  }

  // ---- the commands' words ----

  lemma PlainSetupWords()
    ensures Plain("init") && Plain("Alice init done") && Plain("clean") && Plain("save")
    ensures Plain("load") && Plain("sync_gc") && Plain("go") && Plain("compare_gc")
  {
  }

  lemma PlainCountWords()
    ensures Plain("get counts") && Plain("done") && Plain("qdistance") && Plain("find_vca")
    ensures Plain("vca_per") && Plain("adjust_am") && Plain("adjust_angles_a")
  {
  }

  lemma PlainBiasWords()
    ensures Plain("find_am_bias") && Plain("find_am2_bias") && Plain("verify_am_bias") && Plain("verify_am2_bias")
  {
  }

  lemma PlainGateWords()
    ensures Plain("find_sp") && Plain("verify_gates") && Plain("ad") && Plain("check_gate_edge")
    ensures Plain("set_gate_delay")
  {
  }

  lemma PlainDelayWords()
    ensures Plain("fs_b") && Plain("fs_a") && Plain("download data") && Plain("fd_a")
    ensures Plain("fd_a_long") && Plain("fz_a") && Plain("get ratio") && Plain("ok")
  {
  }

  lemma PlainQberWords()
    ensures Plain("adjust_am_qber") && Plain("adjust_angles_a_qber") && Plain("adjust_angles_b_qber")
    ensures Plain("get_angle1") && Plain("set_angle1") && Plain("set_angles_a")
  {
  }

  lemma PlainAckWords()
    ensures forall w :: w in AckWords() ==> Plain(w)
  {
  }

  lemma {:induction false} SpeaksAllOf(parts: seq<Alice>)
    requires forall p :: p in parts ==> Speaks(p)
    ensures Speaks(AllOf(parts))
  {
    if parts == [] {
    } else {
      SpeaksAllOf(parts[1..]);
      SpeaksThen(parts[0], AllOf(parts[1..]));
    }
  }

  lemma {:induction false} SpeaksTimes(n: nat, body: Alice)
    requires Speaks(body)
    ensures Speaks(Times(n, body))
  {
    if n == 0 {
    } else {
      SpeaksTimes(n - 1, body);
      SpeaksThen(body, Times(n - 1, body));
    }
  }

  lemma SpeaksCounting(word: string, body: Alice)
    requires Plain(word) && Plain("done") && Speaks(body)
    ensures Speaks(Counting(word, body))
  {
    hide Plain;
    SpeaksThen(body, Just("done"));
  }

  lemma SetupCommandsSpeak()
    ensures forall a :: a in SetupCommands() ==> Speaks(a)
  {
    hide Plain;
    PlainSetupWords();
  }

  lemma CountCommandsSpeak()
    ensures forall a :: a in CountCommands() ==> Speaks(a)
  {
    hide Plain, AllOf, Times;
    PlainCountWords();
    PlainBiasWords();
    var once, many := Counts(), Loop(Counts());
    SpeaksTimes(3, once);
    SpeaksTimes(5, once);
    SpeaksTimes(7, once);
    SpeaksAllOf([once, many, once]);
    SpeaksAllOf([many, many, many]);
    SpeaksAllOf([Times(3, once), Times(3, once), once, Either(many, Either(many, End))]);
    SpeaksCounting("vca_per", AllOf([once, many, once]));
    SpeaksCounting("qdistance", AllOf([many, many, many]));
    SpeaksCounting("find_vca", AllOf([Times(3, once), Times(3, once), once, Either(many, Either(many, End))]));
    SpeaksCounting("find_am_bias", many);
    SpeaksCounting("find_am2_bias", many);
    SpeaksCounting("adjust_am", Times(7, once));
    SpeaksCounting("adjust_angles_a", Times(5, once));
  }

  lemma LoopFindBiasSpeaks(find: string, verify: string)
    requires Plain(find) && Plain(verify)
    ensures Speaks(VerifyBias(verify)) && Speaks(LoopFindBias(find, verify))
  {
    hide Plain, AllOf, Times;
    PlainCountWords();
    var once, many := Counts(), Loop(Counts());
    SpeaksTimes(3, once);
    SpeaksThen(once, once);
    SpeaksCounting(find, Times(3, once));
    SpeaksCounting(find, many);
    var again := ThenA(FindBias(find), VerifyBias(verify));
    SpeaksThen(FindBias(find), VerifyBias(verify));
    var retry := AllOf([FindBias(find), again, Either(again, End)]);
    SpeaksAllOf([FindBias(find), again, Either(again, End)]);
    SpeaksAllOf([ProbeBias(find), again, Either(again, End), Either(retry, End)]);
  }

  lemma BiasCommandsSpeak()
    ensures forall a :: a in BiasCommands() ==> Speaks(a)
  {
    hide Plain, LoopFindBias, VerifyBias;
    PlainBiasWords();
    LoopFindBiasSpeaks("find_am_bias", "verify_am_bias");
    LoopFindBiasSpeaks("find_am2_bias", "verify_am2_bias");
  }

  lemma AckCommandsSpeak()
    ensures forall a :: a in AckCommands(AckWords()) ==> Speaks(a)
  {
    hide Plain, AckWords;
    PlainAckWords();
  }

  lemma GateCommandsSpeak()
    ensures forall a :: a in GateCommands() ==> Speaks(a)
  {
    hide Plain, AllOf;
    PlainGateWords();
    SpeaksAllOf([Simple("ad"), FindSp(), Simple("ad"), VerifyGates()]);
    SpeaksThen(FindGatesOnce(), Either(End, FindGatesOnce()));
  }

  lemma FsASpeaks()
    ensures Speaks(FsA())
  {
    hide Plain, Times;
    PlainDelayWords();
    var download := Say("download data", Get(Str, End));
    SpeaksTimes(10, download);
    SpeaksThen(Times(10, download), Get(Int, Get(Dbl, End)));
  }

  lemma FzASpeaks()
    ensures Speaks(FzA())
  {
    hide Plain, AllOf;
    PlainDelayWords();
    var ratios := [Ratio(), Either(End, Loop(Ratio()))];
    SpeaksAllOf(ratios);
    SpeaksThen(AllOf(ratios), Say("ok", Get(Str, End)));
  }

  lemma OtherCommandsSpeak()
    ensures forall a :: a in OtherCommands() ==> Speaks(a)
  {
    hide Plain, FsA, FzA;
    PlainCountWords();
    PlainDelayWords();
    PlainQberWords();
    FsASpeaks();
    FzASpeaks();
  }

  lemma EveryCommandSpeaks()
    ensures forall a :: a in Commands() ==> Speaks(a)
  {
    SetupCommandsSpeak();
    CountCommandsSpeak();
    BiasCommandsSpeak();
    AckCommandsSpeak();
    GateCommandsSpeak();
    OtherCommandsSpeak();
    hide Speaks, SetupCommands, CountCommands, BiasCommands, AckCommands, GateCommands, OtherCommands;
  }

  lemma {:induction false} AnyOfSpeaks(menu: seq<Alice>)
    requires forall a :: a in menu ==> Speaks(a)
    ensures Speaks(AnyOf(menu))
  {
    if menu == [] {
    } else {
      assert menu[0] in menu;
      AnyOfSpeaks(menu[1..]);
    }
  }

  // ---- main results ----

  /** After these moves of the two sides and of the bytes between them, no receive misreads, each side
      has read the values sent to it in order and unchanged, and the end is in reach, so that nothing
      hangs: all sent and all read, with Bob at `final`. */
  ghost predicate FaithfulOnBytes(d: Dispatch, a: Alice, b: Bob, final: Bob, moves: seq<Move>) {
    Run(Acts(d), Link(a, b, EMPTY, EMPTY), moves).Some? ==>
      var c := Run(Acts(d), Link(a, b, EMPTY, EMPTY), moves).value;
      && !Misreads(d, c) && InOrder(c.toBob) && InOrder(c.toAlice)
      && exists more :: Run(Acts(d), c, more).Some? && Over(Run(Acts(d), c, more).value, final)
  }

  lemma StartIsSound(d: Dispatch, a: Alice, b: Bob, final: Bob)
    requires After(d, a, b) == Some(final) && Speaks(a)
    ensures Sound(d, Link(a, b, EMPTY, EMPTY), final)
  {
    assert AliceAhead(d, View(Link(a, b, EMPTY, EMPTY)), final);
  }

  /** The compatibility check on typed messages is enough for the untyped bytes. */
  lemma CompatibleOnBytes(d: Dispatch, a: Alice, b: Bob, final: Bob, moves: seq<Move>)
    requires After(d, a, b) == Some(final) && !final.Send? && Speaks(a)
    ensures FaithfulOnBytes(d, a, b, final, moves)
  {
    hide After, Speaks, Inv, View, Carries, Misreads, InOrder, Over;
    var start := Link(a, b, EMPTY, EMPTY);
    StartIsSound(d, a, b, final);
    if Run(Acts(d), start, moves).Some? {
      ActsKeepSound(d, final);
      RunKeeps(Acts(d), c => Sound(d, c, final), start, moves);
      var c := Run(Acts(d), start, moves).value;
      SoundNeverMisreads(d, c, final);
      CarriesInOrder(c.toBob);
      CarriesInOrder(c.toAlice);
      var more := EndInReach(d, c, final);
    }
  }

  /** Whole sessions over any menu of the commands, on the bytes of the connection: Alice may be some
      commands ahead, with frames cut anywhere, and still every value is read as it was sent. */
  lemma SessionOnBytes(menu: seq<Alice>, moves: seq<Move>)
    requires forall a :: a in menu ==> a in Commands()
    ensures FaithfulOnBytes(Handler, Session(menu), Serve, Serve, moves)
  {
    hide Handler, Commands, FaithfulOnBytes;
    EveryCommandFits();
    EveryCommandSpeaks();
    AnyOfFits(menu);
    AnyOfSpeaks(menu);
    KeepsThen(AnyOf(menu), End, Serve);
    CompatibleOnBytes(Handler, Session(menu), Serve, Serve, moves);
  }
}
