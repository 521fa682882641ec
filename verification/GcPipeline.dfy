/** The whole counter pipeline as interleaved atomic steps: Bob's `send_gc` loop, the TCP link and
    Alice's `recv_gc` loop (gc/src/bin/bob.rs, gc/src/bin/alice.rs, gc/src/hw.rs). Chunk sizes, read
    times, the moment Bob's side closes and the moment Alice stops are all arbitrary. */
module GcPipeline {
  import opened Bytes
  import opened GcRecords
  import opened GcBatches
  import opened GcLinks
  import opened GcLoops
  import opened Maybe
  import opened Runs

  /** Where Bob is in a round: reading clicks, sending them, writing his FPGA, writing the results. */
  datatype BobPc = Reading | Sending | Filing | Recording

  datatype BobState = BobState(
    pc: BobPc,
    open: bool,            // he still streams and holds his end of the link
    shortAt: Option<nat>,  // how many clicks he had when a top-up read of his first stopped short
    device: seq<byte>,     // clicks still in his click fifo
    consumed: seq<byte>,   // bytes he has taken from it so far
    taken: seq<Click>,     // the clicks he has made of them, in order
    readLength: nat,
    batch: seq<Click>,     // the batch of this round
    unsent: seq<byte>,     // the part of this round's write to Alice that has not gone out
    fpga: seq<byte>,
    results: seq<byte>)

  /** Where Alice is: about to read, owing a top-up read, writing sub-batches, or out of the loop. */
  datatype AlicePc =
    | Idle
    | ToppingUp(partial: seq<byte>)
    | Writing(batches: seq<seq<u64>>)
    | Gone

  datatype AliceState = AliceState(
    pc: AlicePc,
    intact: bool,          // she has discarded no received byte
    shortAt: Option<nat>,  // how many counters she had when a top-up first stopped short, the stream going on
    position: nat,         // how many bytes she has taken off the link
    fpga: seq<byte>)

  datatype State = State(bob: BobState, wire: seq<byte>, alice: AliceState)

  datatype Step =
    | BobRead(len: nat, timeMs: nat)
    | BobSend(k: nat)
    | BobFile
    | BobRecord
    | BobClose
    | AliceRead(n: nat)
    | AliceTopUp(m: nat)
    | AliceWrite
    | AliceNext
    | AliceStop
    | AliceEof

  function Init(input: seq<byte>): State {
    State(BobState(Reading, true, None, input, [], [], 1, [], [], [], []), [], AliceState(Idle, true, None, 0, []))
  }

  // ---- Bob's steps ----

  predicate CanBobRead(b: BobState, len: nat) {
    b.open && b.pc.Reading? && 1 <= len <= b.readLength * 16 && len <= |b.device|
  }

  /** One read plus its top-up takes len bytes: whole records unless the top-up stopped short, which
      the program only logs. */
  function AfterBobRead(b: BobState, len: nat, timeMs: nat): BobState
    requires CanBobRead(b, len)
  {
    var taken := b.device[..len];
    b.(pc := if ToAlice(taken) == [] then Filing else Sending,
       shortAt := if b.shortAt.None? && len % 16 != 0 then Some(|b.taken| + len / 16) else b.shortAt,
       device := b.device[len..], consumed := b.consumed + taken, taken := b.taken + Clicks(taken),
       readLength := NextReadLength(b.readLength, timeMs), batch := Clicks(taken), unsent := ToAlice(taken))
  }

  predicate CanBobSend(b: BobState, k: nat) {
    b.open && b.pc.Sending? && 1 <= k <= |b.unsent|
  }

  /** k more bytes of the write to Alice go out. */
  function AfterBobSend(b: BobState, k: nat): BobState
    requires CanBobSend(b, k)
  {
    b.(unsent := b.unsent[k..], pc := if k == |b.unsent| then Filing else Sending)
  }

  function AfterBobFile(b: BobState): BobState {
    b.(pc := Recording, fpga := b.fpga + EncodeForFpga(Gcs(b.batch)))
  }

  function AfterBobRecord(b: BobState): BobState {
    b.(pc := Reading, batch := [], results := b.results + Results(b.batch))
  }

  // ---- Alice's steps ----

  /** How many more bytes complete the partial counter. */
  function Missing(partial: seq<byte>): nat {
    RoundUp(|partial|, 8) - |partial|
  }

  predicate CanAliceRead(s: State, n: nat) {
    s.alice.pc.Idle? && 1 <= n <= |s.wire| && n <= TCP_RCV_BATCHSIZE * 8
  }

  function AfterAliceRead(s: State, n: nat): State
    requires CanAliceRead(s, n)
  {
    var chunk := s.wire[..n];
    s.(wire := s.wire[n..], alice := s.alice.(position := s.alice.position + n, pc :=
        if n % 8 == 0 then Writing(SubBatches(Counters(chunk))) else ToppingUp(chunk)))
  }

  /** What the top-up read may deliver: nothing only at the end of the stream. */
  predicate CanTopUp(s: State, m: nat) {
    && s.alice.pc.ToppingUp? && m <= Missing(s.alice.pc.partial) && m <= |s.wire|
    && (m == 0 ==> s.wire == [] && !s.bob.open)
  }

  /** The top-up read delivers the rest of the counter. */
  function AfterTopUp(s: State): State
    requires s.alice.pc.ToppingUp? && CanTopUp(s, Missing(s.alice.pc.partial))
  {
    var missing := Missing(s.alice.pc.partial);
    s.(wire := s.wire[missing..],
       alice := s.alice.(position := s.alice.position + missing,
                         pc := Writing(SubBatches(Counters(s.alice.pc.partial + s.wire[..missing])))))
  }

  /** It stops short: the program logs it, drops the partial counter and, with no whole counter left,
      takes it for the end of the stream. Harmless only if the stream really ends there. */
  function AfterShortTopUp(s: State, m: nat): State
    requires CanTopUp(s, m)
  {
    var received, ended := s.alice.pc.partial + s.wire[..m], m == |s.wire| && !s.bob.open;
    s.(wire := s.wire[m..], alice := s.alice.(
      intact := false, position := s.alice.position + m,
      shortAt := if ended || s.alice.shortAt.Some? then s.alice.shortAt
                 else Some(|s.alice.fpga| / 16 + |received| / 8),
      pc := if |received| < 8 then Gone else Writing(SubBatches(Counters(received)))))
  }

  function AfterAliceWrite(s: State): State
    requires s.alice.pc.Writing? && s.alice.pc.batches != []
  {
    var batches := s.alice.pc.batches;
    s.(alice := s.alice.(fpga := s.alice.fpga + EncodeForFpga(batches[0]), pc := Writing(batches[1..])))
  }

  /** RUNNING was cleared: she leaves the loop and drops her end of the link. */
  function AfterAliceStop(s: State): State {
    s.(wire := [], alice := s.alice.(pc := Gone, intact := false))
  }

  predicate AtLoopTop(a: AliceState) {
    a.pc.Idle? || a.pc == Writing([])
  }

  function Apply(s: State, step: Step): Option<State> {
    match step
    case BobRead(len, timeMs) =>
      if CanBobRead(s.bob, len) then Some(s.(bob := AfterBobRead(s.bob, len, timeMs))) else None
    case BobSend(k) =>
      if CanBobSend(s.bob, k) then
        Some(s.(bob := AfterBobSend(s.bob, k),
                wire := if s.alice.pc.Gone? then s.wire else s.wire + s.bob.unsent[..k]))
      else None
    case BobFile => if s.bob.open && s.bob.pc.Filing? then Some(s.(bob := AfterBobFile(s.bob))) else None
    case BobRecord => if s.bob.open && s.bob.pc.Recording? then Some(s.(bob := AfterBobRecord(s.bob))) else None
    case BobClose => Some(s.(bob := s.bob.(open := false)))
    case AliceRead(n) => if CanAliceRead(s, n) then Some(AfterAliceRead(s, n)) else None
    case AliceTopUp(m) =>
      if !CanTopUp(s, m) then None
      else if m == Missing(s.alice.pc.partial) then Some(AfterTopUp(s))
      else Some(AfterShortTopUp(s, m))
    case AliceWrite => if s.alice.pc.Writing? && s.alice.pc.batches != [] then Some(AfterAliceWrite(s)) else None
    case AliceNext => if s.alice.pc == Writing([]) then Some(s.(alice := s.alice.(pc := Idle))) else None
    case AliceStop => if AtLoopTop(s.alice) then Some(AfterAliceStop(s)) else None
    case AliceEof =>
      if s.alice.pc.Idle? && s.wire == [] && !s.bob.open then Some(s.(alice := s.alice.(pc := Gone))) else None
  }

  // ---- the link between what Bob took and what reached Alice ----

  /** `at` reached Alice, `inFlight` is still on the way, and together they are exactly `g`. */
  ghost predicate Link(g: seq<u64>, at: seq<u64>, inFlight: seq<byte>) {
    at <= g && inFlight == EncodeCounters(g[|at|..])
  }

  lemma LinkExtends(g: seq<u64>, at: seq<u64>, inFlight: seq<byte>, more: seq<u64>)
    requires Link(g, at, inFlight)
    ensures Link(g + more, at, inFlight + EncodeCounters(more))
  {
    assert (g + more)[|at|..] == g[|at|..] + more;
    EncodeCountersConcat(g[|at|..], more);
  }

  /** Decoding the next whole counters off the link moves exactly those to Alice. */
  lemma LinkDelivers(g: seq<u64>, at: seq<u64>, whole: seq<byte>, rest: seq<byte>)
    requires Link(g, at, whole + rest) && |whole| % 8 == 0
    ensures Link(g, at + Counters(whole), rest)
  {
    var remaining, j := g[|at|..], |whole| / 8;
    assert 8 * j == |whole|;
    TakeAndDrop(whole, rest);
    NextCounters(remaining, j);
    PrefixGrows(g, at, j);
  }

  lemma TakeAndDrop(a: seq<byte>, b: seq<byte>)
    ensures (a + b)[..|a|] == a && (a + b)[|a|..] == b
  {
  }

  lemma PrefixGrows(g: seq<u64>, at: seq<u64>, j: nat)
    requires at <= g && j <= |g[|at|..]|
    ensures at + g[|at|..][..j] <= g
    ensures g[|at|..][j..] == g[|at + g[|at|..][..j]|..]
  {
  }

  /** When the stream ends inside a counter, the whole counters before it are still the right ones. */
  lemma LinkCutShort(g: seq<u64>, at: seq<u64>, partial: seq<byte>, rest: seq<byte>)
    requires Link(g, at, partial + rest)
    ensures at + Counters(partial) <= g
  {
    var whole := partial[..8 * (|partial| / 8)];
    var tail := partial[|whole|..];
    assert partial == whole + tail && partial + rest == whole + (tail + rest);
    LinkDelivers(g, at, whole, tail + rest);
    CountersConcat(whole, tail);
  }

  // ---- the invariant ----

  /** The counters of every click Bob has made of his click fifo so far, in order. */
  function Taken(b: BobState): seq<u64> {
    Gcs(b.taken)
  }

  function Pending(a: AliceState): seq<u64> {
    if a.pc.Writing? then Flatten(a.pc.batches) else []
  }

  /** The counters that reached Alice: on her FPGA or in a sub-batch she is about to write. */
  function AtAlice(a: AliceState): seq<u64> {
    FpgaCounters(a.fpga) + Pending(a)
  }

  /** The bytes between Bob's click fifo and Alice's decoder: a partial counter she holds, then the
      wire, then what Bob has not sent yet. */
  function InFlight(s: State): seq<byte> {
    var onTheWay := s.wire + s.bob.unsent;
    if s.alice.pc.ToppingUp? then s.alice.pc.partial + onTheWay else onTheWay
  }

  /** Bob's two logs hold the clicks he took, except for the batch of this round. */
  ghost predicate BobLogs(clicks: seq<Click>, batch: seq<Click>, fpga: seq<byte>, results: seq<byte>, filed: bool) {
    && |batch| <= |clicks| && batch == clicks[|clicks| - |batch|..]
    && FpgaCounters(fpga) == Gcs(if filed then clicks else clicks[..|clicks| - |batch|])
    && results == Results(clicks[..|clicks| - |batch|])
  }

  ghost predicate BobInv(b: BobState) {
    && |b.fpga| % 16 == 0
    && IsReadLength(b.readLength) && |b.batch| <= BATCHSIZE
    && (b.pc.Reading? ==> b.batch == [])
    && (b.pc.Sending? <==> b.unsent != [])
    && Representable(Gcs(b.taken))
    && BobLogs(b.taken, b.batch, b.fpga, b.results, b.pc.Recording?)
    && (b.shortAt.None? ==> |b.consumed| % 16 == 0 && b.taken == Clicks(b.consumed))
  }

  /** What reached Alice is a prefix of what Bob took, and as long as she has discarded nothing the
      bytes in flight are exactly the rest. */
  ghost predicate AliceInv(s: State) {
    && |s.alice.fpga| % 16 == 0
    && AtAlice(s.alice) <= Taken(s.bob)
    && (s.alice.pc.ToppingUp? ==> |s.alice.pc.partial| % 8 != 0)
    && (s.alice.pc.Gone? && s.alice.intact ==> !s.bob.open && s.wire == [])
    && if s.alice.intact then Link(Taken(s.bob), AtAlice(s.alice), InFlight(s))
       else s.wire == [] && !s.alice.pc.ToppingUp? && (s.alice.pc.Gone? || !s.bob.open)
  }

  ghost predicate Inv(s: State, input: seq<byte>) {
    && s.bob.consumed + s.bob.device == input
    && BobInv(s.bob)
    && (s.alice.shortAt.None? ==> AliceInv(s))
    && (s.alice.intact ==> s.alice.shortAt.None?)
  }

  lemma InitInv(input: seq<byte>)
    ensures Inv(Init(input), input)
  {
    assert Pow2(0) == 1;
    var s := Init(input);
    assert AtAlice(s.alice) == [] && Taken(s.bob) == [];
  }

  lemma LogsAfterRead(clicks: seq<Click>, fpga: seq<byte>, results: seq<byte>, batch: seq<Click>)
    requires BobLogs(clicks, [], fpga, results, false)
    ensures BobLogs(clicks + batch, batch, fpga, results, false)
  {
    assert clicks[..|clicks|] == clicks;
    assert (clicks + batch)[..|clicks|] == clicks && (clicks + batch)[|clicks|..] == batch;
  }

  lemma LogsAfterFile(clicks: seq<Click>, batch: seq<Click>, fpga: seq<byte>, results: seq<byte>)
    requires |fpga| % 16 == 0 && BobLogs(clicks, batch, fpga, results, false)
    requires Representable(Gcs(batch))
    ensures BobLogs(clicks, batch, fpga + EncodeForFpga(Gcs(batch)), results, true)
  {
    var head := clicks[..|clicks| - |batch|];
    assert head + batch == clicks;
    GcsConcat(head, batch);
    FpgaCountersAppend(fpga, Gcs(batch));
  }

  lemma LogsAfterRecord(clicks: seq<Click>, batch: seq<Click>, fpga: seq<byte>, results: seq<byte>)
    requires BobLogs(clicks, batch, fpga, results, true)
    ensures BobLogs(clicks, [], fpga, results + Results(batch), false)
  {
    var head := clicks[..|clicks| - |batch|];
    assert head + batch == clicks && clicks[..|clicks|] == clicks && clicks[|clicks|..] == [];
    GcsConcat(head, batch);
  }

  // ---- Bob's steps keep the invariant ----

  lemma ReadKeepsBobInv(b: BobState, len: nat, timeMs: nat)
    requires BobInv(b) && CanBobRead(b, len)
    ensures BobInv(AfterBobRead(b, len, timeMs))
  {
    hide EncodeCounters, Clicks, Counters, Flatten, EncodeForFpga, SubBatches;
    var c := AfterBobRead(b, len, timeMs);
    var taken := b.device[..len];
    if c.shortAt.None? {
      ClicksConcat(b.consumed, taken);
      MultipleAdds(|b.consumed|, len, 16);
    }
    assert IsReadLength(c.readLength) by { ReadLengthStep(b.readLength, timeMs); }
    GcsConcat(b.taken, Clicks(taken));
    LogsAfterRead(b.taken, b.fpga, b.results, Clicks(taken));
  }

  lemma ReadKeepsAliceInv(s: State, len: nat, timeMs: nat)
    requires AliceInv(s) && BobInv(s.bob) && CanBobRead(s.bob, len)
    ensures AliceInv(s.(bob := AfterBobRead(s.bob, len, timeMs)))
  {
    hide EncodeCounters, Clicks, Counters, Flatten, EncodeForFpga, SubBatches, BobLogs, NextReadLength;
    var b, c := s.bob, AfterBobRead(s.bob, len, timeMs);
    var taken := b.device[..len];
    GcsConcat(b.taken, Clicks(taken));
    hide Gcs, NextReadLength, FpgaCounters;
    if s.alice.intact {
      LinkExtends(Taken(b), AtAlice(s.alice), InFlight(s), Gcs(Clicks(taken)));
      assert InFlight(s.(bob := c)) == InFlight(s) + ToAlice(taken);
    }
  }

  lemma SendKeepsAliceInv(s: State, k: nat)
    requires AliceInv(s) && CanBobSend(s.bob, k)
    ensures AliceInv(Apply(s, BobSend(k)).value)
  {
    var t := Apply(s, BobSend(k)).value;
    if !s.alice.pc.Gone? {
      assert (s.wire + s.bob.unsent[..k]) + s.bob.unsent[k..] == s.wire + s.bob.unsent;
      assert InFlight(t) == InFlight(s);
    }
  }

  lemma ReadKeepsInput(b: BobState, len: nat, timeMs: nat)
    requires CanBobRead(b, len)
    ensures var c := AfterBobRead(b, len, timeMs); c.consumed + c.device == b.consumed + b.device
  {
    assert b.device[..len] + b.device[len..] == b.device;
  }

  lemma FileKeepsBobInv(b: BobState)
    requires BobInv(b) && b.pc.Filing?
    ensures BobInv(AfterBobFile(b))
  {
    hide Clicks, EncodeForFpga, BobLogs, FpgaCounters, Gcs, Results;
    BatchIsRepresentable(b.taken, b.batch, b.fpga, b.results);
    LogsAfterFile(b.taken, b.batch, b.fpga, b.results);
  }

  lemma BatchIsRepresentable(clicks: seq<Click>, batch: seq<Click>, fpga: seq<byte>, results: seq<byte>)
    requires BobLogs(clicks, batch, fpga, results, false) && Representable(Gcs(clicks))
    ensures Representable(Gcs(batch))
  {
    var skip := |clicks| - |batch|;
    assert forall i :: 0 <= i < |batch| ==> Gcs(batch)[i] == Gcs(clicks)[skip + i];
  }

  lemma RecordKeepsBobInv(b: BobState)
    requires BobInv(b) && b.pc.Recording?
    ensures BobInv(AfterBobRecord(b))
  {
    LogsAfterRecord(b.taken, b.batch, b.fpga, b.results);
  }

  lemma BobStepKeepsInv(s: State, step: Step, input: seq<byte>)
    requires Inv(s, input) && Apply(s, step).Some?
    requires step.BobRead? || step.BobSend? || step.BobFile? || step.BobRecord? || step.BobClose?
    ensures Inv(Apply(s, step).value, input)
  {
    hide EncodeCounters, Clicks, Counters, Flatten, EncodeForFpga, SubBatches;
    match step
    case BobRead(len, timeMs) =>
      ReadKeepsInput(s.bob, len, timeMs);
      ReadKeepsBobInv(s.bob, len, timeMs);
      if s.alice.shortAt.None? { ReadKeepsAliceInv(s, len, timeMs); }
    case BobSend(k) => if s.alice.shortAt.None? { SendKeepsAliceInv(s, k); }
    case BobFile => FileKeepsBobInv(s.bob);
    case BobRecord => RecordKeepsBobInv(s.bob);
    case BobClose =>
  }

  // ---- Alice's steps keep the invariant ----

  lemma ReadOrTopUpKeepsInv(s: State, t: State, whole: seq<byte>)
    requires AliceInv(s) && s.alice.intact && !s.alice.pc.Writing?
    requires t.bob == s.bob
    requires t.alice == s.alice.(position := t.alice.position, pc := Writing(SubBatches(Counters(whole))))
    requires |whole| % 8 == 0 && whole + (t.wire + t.bob.unsent) == InFlight(s)
    ensures AliceInv(t)
  {
    hide EncodeCounters, Clicks, Counters, Flatten, SubBatches;
    SubBatchesPending(t.alice, Counters(whole));
    NothingPending(s.alice);
    LinkDelivers(Taken(s.bob), AtAlice(s.alice), whole, InFlight(t));
  }

  lemma SubBatchesPending(a: AliceState, gcs: seq<u64>)
    requires a.pc == Writing(SubBatches(gcs))
    ensures AtAlice(a) == FpgaCounters(a.fpga) + gcs
  {
  }

  lemma NothingPending(a: AliceState)
    requires a.pc.Writing? ==> a.pc.batches == []
    ensures AtAlice(a) == FpgaCounters(a.fpga)
  {
  }

  lemma AliceReadKeepsInv(s: State, n: nat)
    requires AliceInv(s) && CanAliceRead(s, n)
    ensures AliceInv(AfterAliceRead(s, n))
  {
    var t, chunk := AfterAliceRead(s, n), s.wire[..n];
    assert chunk + (s.wire[n..] + s.bob.unsent) == s.wire + s.bob.unsent;
    if n % 8 == 0 {
      ReadOrTopUpKeepsInv(s, t, chunk);
    } else {
      assert InFlight(t) == InFlight(s);
      assert AtAlice(t.alice) == AtAlice(s.alice);
    }
  }

  lemma TopUpKeepsInv(s: State)
    requires AliceInv(s) && s.alice.pc.ToppingUp? && CanTopUp(s, Missing(s.alice.pc.partial))
    ensures AliceInv(AfterTopUp(s))
  {
    hide EncodeCounters, Clicks, Counters, Flatten, EncodeForFpga, SubBatches;
    var partial, missing := s.alice.pc.partial, Missing(s.alice.pc.partial);
    var whole, left := partial + s.wire[..missing], s.wire[missing..] + s.bob.unsent;
    assert |whole| == RoundUp(|partial|, 8);
    assert whole + left == partial + (s.wire + s.bob.unsent);
    ReadOrTopUpKeepsInv(s, AfterTopUp(s), whole);
  }

  lemma ShortTopUpKeepsInv(s: State)
    requires AliceInv(s) && s.alice.pc.ToppingUp? && !s.bob.open && CanTopUp(s, |s.wire|)
    ensures AliceInv(AfterShortTopUp(s, |s.wire|))
  {
    hide EncodeCounters, Clicks, Counters, Flatten, EncodeForFpga, SubBatches;
    var received := s.alice.pc.partial + s.wire;
    assert s.wire[..|s.wire|] == s.wire && s.wire[|s.wire|..] == [];
    assert received + s.bob.unsent == InFlight(s);
    LinkCutShort(Taken(s.bob), AtAlice(s.alice), received, s.bob.unsent);
    NothingPending(s.alice);
    NoCounters(received);
    assert AtAlice(AfterShortTopUp(s, |s.wire|).alice) == AtAlice(s.alice) + Counters(received);
  }

  lemma NoCounters(bs: seq<byte>)
    ensures |bs| < 8 ==> Counters(bs) == []
  {
  }

  lemma PartIsRepresentable(a: seq<u64>, b: seq<u64>, c: seq<u64>, g: seq<u64>)
    requires Representable(g) && a + (b + c) <= g
    ensures Representable(b) && a + (b + c) == a + b + c
  {
    assert forall i :: 0 <= i < |b| ==> b[i] == (a + (b + c))[|a| + i];
  }

  lemma WriteKeepsAtAlice(fpga: seq<byte>, batches: seq<seq<u64>>, g: seq<u64>)
    requires |fpga| % 16 == 0 && batches != [] && Representable(g)
    requires FpgaCounters(fpga) + Flatten(batches) <= g
    ensures FpgaCounters(fpga + EncodeForFpga(batches[0])) + Flatten(batches[1..])
         == FpgaCounters(fpga) + Flatten(batches)
  {
    hide Clicks, EncodeForFpga;
    var log, first, later := FpgaCounters(fpga), batches[0], Flatten(batches[1..]);
    assert Flatten(batches) == first + later;
    PartIsRepresentable(log, first, later, g);
    FpgaCountersAppend(fpga, first);
  }

  lemma AliceStepKeepsInv(s: State, step: Step)
    requires BobInv(s.bob) && AliceInv(s) && Apply(s, step).Some? && Apply(s, step).value.alice.shortAt.None?
    requires !(step.BobRead? || step.BobSend? || step.BobFile? || step.BobRecord? || step.BobClose?)
    ensures AliceInv(Apply(s, step).value)
  {
    hide EncodeCounters, Clicks, Counters, Flatten, EncodeForFpga, SubBatches;
    var t := Apply(s, step).value;
    match step
    case AliceRead(n) => AliceReadKeepsInv(s, n);
    case AliceTopUp(m) =>
      if m == Missing(s.alice.pc.partial) {
        TopUpKeepsInv(s);
      } else if m == |s.wire| && !s.bob.open {
        ShortTopUpKeepsInv(s);
      }
    case AliceWrite =>
      WriteKeepsAtAlice(s.alice.fpga, s.alice.pc.batches, Taken(s.bob));
      assert AtAlice(t.alice) == AtAlice(s.alice) && InFlight(t) == InFlight(s);
    case AliceNext => NothingPending(s.alice); NothingPending(t.alice);
    case AliceStop => NothingPending(s.alice);
    case AliceEof => NothingPending(s.alice);
  }

  /** Every step of every party keeps the invariant. */
  lemma StepKeepsInv(s: State, step: Step, input: seq<byte>)
    requires Inv(s, input) && Apply(s, step).Some?
    ensures Inv(Apply(s, step).value, input)
  {
    if step.BobRead? || step.BobSend? || step.BobFile? || step.BobRecord? || step.BobClose? {
      BobStepKeepsInv(s, step, input);
    } else {
      assert Apply(s, step).value.bob == s.bob;
      if Apply(s, step).value.alice.shortAt.None? {
        AliceStepKeepsInv(s, step);
      }
    }
  }

  lemma RunKeepsInv(input: seq<byte>, steps: seq<Step>)
    requires Run(Apply, Init(input), steps).Some?
    ensures Inv(Run(Apply, Init(input), steps).value, input)
  {
    hide Inv, Apply;
    forall s, step | Inv(s, input) && Apply(s, step).Some? ensures Inv(Apply(s, step).value, input) {
      StepKeepsInv(s, step, input);
    }
    InitInv(input);
    RunKeeps(Apply, s => Inv(s, input), Init(input), steps);
  }

  ghost predicate Reachable(s: State, input: seq<byte>) {
    Runs.Reachable(Apply, Init(input), s)
  }

  lemma ReachableInv(s: State, input: seq<byte>)
    requires Reachable(s, input)
    ensures Inv(s, input)
  {
    var steps :| Run(Apply, Init(input), steps) == Some(s);
    RunKeepsInv(input, steps);
  }

  // ---- main results ----

  /** Nothing is lost, added or reordered on the way to Alice: in every reachable state in which she
      has discarded nothing, her FPGA, then her unwritten sub-batches, then the bytes in flight are
      exactly the counters Bob made of his click fifo. */
  lemma CountersConserved(s: State, input: seq<byte>)
    requires Reachable(s, input) && s.alice.intact
    ensures FpgaCounters(s.alice.fpga) + Pending(s.alice) + Counters(InFlight(s)) == Taken(s.bob)
    ensures |InFlight(s)| % 8 == 0
  {
    ReachableInv(s, input);
    LinkIsWhole(Taken(s.bob), AtAlice(s.alice), InFlight(s));
  }

  lemma LinkIsWhole(g: seq<u64>, at: seq<u64>, inFlight: seq<byte>)
    requires Link(g, at, inFlight)
    ensures at + Counters(inFlight) == g && |inFlight| % 8 == 0
  {
    hide EncodeCounters, Counters;
    assert at + g[|at|..] == g;
    CountersRoundTrip(g[|at|..]);
  }

  /** In every reachable state, whoever stopped or failed when, the counters on both FPGAs and the
      result fifo follow one and the same click sequence, and Bob's logs lag it by at most one batch.
      It is the sequence of his click fifo as long as his own top-up reads are complete. Alice's FPGA
      follows it unless one of hers stopped short with the stream going on. */
  lemma OneClickSequence(s: State, input: seq<byte>)
    requires Reachable(s, input)
    ensures s.bob.shortAt.None? ==> s.bob.taken == Clicks(s.bob.consumed) <= Clicks(input)
    ensures s.alice.shortAt.None? ==> FpgaCounters(s.alice.fpga) <= Taken(s.bob)
    ensures FpgaCounters(s.bob.fpga) <= Taken(s.bob) && s.bob.results <= Results(s.bob.taken)
    ensures |s.bob.results| <= |FpgaCounters(s.bob.fpga)| <= |s.bob.taken| <= |s.bob.results| + BATCHSIZE
  {
    ReachableInv(s, input);
    var b := s.bob;
    hide Clicks, Counters, Flatten, BobLogs, Link;
    LogsFollow(b.taken, b.batch, b.fpga, b.results, b.pc.Recording?);
    if b.shortAt.None? {
      ClicksConcat(b.consumed, b.device);
    }
    AliceFollows(s);
  }

  lemma AliceFollows(s: State)
    ensures AliceInv(s) ==> FpgaCounters(s.alice.fpga) <= Taken(s.bob)
  {
    hide FpgaCounters, Pending, Taken, Link;
  }

  lemma LogsFollow(clicks: seq<Click>, batch: seq<Click>, fpga: seq<byte>, results: seq<byte>, filed: bool)
    requires BobLogs(clicks, batch, fpga, results, filed)
    ensures FpgaCounters(fpga) <= Gcs(clicks) && results <= Results(clicks)
    ensures |results| <= |FpgaCounters(fpga)| <= |clicks| == |results| + |batch|
  {
    hide Clicks, FpgaCounters;
    var head := clicks[..|clicks| - |batch|];
    assert head + batch == clicks;
    GcsConcat(head, batch);
  }

  /** Result i and counter i on Bob's side are the two halves of click i. */
  lemma ResultsBelongToCounters(s: State, input: seq<byte>, i: nat)
    requires Reachable(s, input) && i < |s.bob.results|
    ensures i < |FpgaCounters(s.bob.fpga)| && i < |s.bob.taken|
    ensures Click(FpgaCounters(s.bob.fpga)[i], s.bob.results[i]) == s.bob.taken[i]
    ensures s.bob.shortAt.None? ==> i < |Clicks(input)| && s.bob.taken[i] == Clicks(input)[i]
  {
    hide Clicks, Counters;
    OneClickSequence(s, input);
  }

  /** Once Bob has finished a round and closed and Alice has seen the end of the stream, all three
      logs are complete: every click Bob took is on both FPGAs and in the result fifo. */
  lemma CleanEndIsComplete(s: State, input: seq<byte>)
    requires Reachable(s, input)
    requires s.bob.pc.Reading? && s.alice.pc.Gone? && s.alice.intact
    ensures FpgaCounters(s.alice.fpga) == FpgaCounters(s.bob.fpga) == Taken(s.bob)
    ensures s.bob.results == Results(s.bob.taken)
  {
    hide EncodeCounters, Clicks, EncodeForFpga, SubBatches;
    CountersConserved(s, input);
    ReachableInv(s, input);
    assert InFlight(s) == [];
    var clicks := s.bob.taken;
    assert clicks[..|clicks|] == clicks;
  }

  // ---- why a short top-up matters ----

  /** One round of Bob for a batch of counters, read and sent in one go. */
  lemma SendBatch(s: State, input: seq<byte>, gcs: seq<u64>, rest: seq<byte>) returns (t: State)
    requires Reachable(s, input) && s.bob.open && s.bob.pc.Reading? && !s.alice.pc.Gone?
    requires s.bob.device == EncodeForFpga(gcs) + rest
    requires 1 <= |gcs| <= s.bob.readLength <= BATCHSIZE / 2 && Representable(gcs)
    ensures Reachable(t, input) && t.alice == s.alice && t.wire == s.wire + EncodeCounters(gcs)
    ensures t.bob.open && t.bob.pc.Reading? && t.bob.device == rest && t.bob.readLength == 2 * s.bob.readLength
    ensures Taken(t.bob) == Taken(s.bob) + gcs
  {
    hide Apply, Taken, EncodeCounters, EncodeForFpga, Representable;
    var read, sent, filed;
    read, sent, filed, t := RoundOfBob(s, gcs, rest);
    var u := Go(Apply, Init(input), s, BobRead(16 * |gcs|, 0));
    u := Go(Apply, Init(input), read, BobSend(8 * |gcs|));
    u := Go(Apply, Init(input), sent, BobFile);
    u := Go(Apply, Init(input), filed, BobRecord);
  }

  lemma RoundOfBob(s: State, gcs: seq<u64>, rest: seq<byte>)
      returns (read: State, sent: State, filed: State, t: State)
    requires s.bob.open && s.bob.pc.Reading? && !s.alice.pc.Gone?
    requires s.bob.device == EncodeForFpga(gcs) + rest
    requires 1 <= |gcs| <= s.bob.readLength <= BATCHSIZE / 2 && Representable(gcs)
    ensures Apply(s, BobRead(16 * |gcs|, 0)) == Some(read) && Apply(read, BobSend(8 * |gcs|)) == Some(sent)
    ensures Apply(sent, BobFile) == Some(filed) && Apply(filed, BobRecord) == Some(t)
    ensures t.alice == s.alice && t.wire == s.wire + EncodeCounters(gcs)
    ensures t.bob.open && t.bob.pc.Reading? && t.bob.device == rest && t.bob.readLength == 2 * s.bob.readLength
    ensures Taken(t.bob) == Taken(s.bob) + gcs
  {
    hide EncodeCounters, EncodeForFpga, Clicks;
    var records, len := EncodeForFpga(gcs), 16 * |gcs|;
    FpgaRoundTrip(gcs);
    assert s.bob.device[..len] == records && s.bob.device[len..] == rest;
    GcsConcat(s.bob.taken, Clicks(records));
    read := Apply(s, BobRead(len, 0)).value;
    sent := Apply(read, BobSend(8 * |gcs|)).value;
    filed := Apply(sent, BobFile).value;
    t := Apply(filed, BobRecord).value;
  }

  /** Bob sends the counters 0, 0 and 1 before Alice reads anything. */
  lemma ThreeCountersOnTheWire() returns (s: State, input: seq<byte>)
    ensures Reachable(s, input) && s.alice == Init(input).alice && s.bob.open
    ensures s.wire == Zeros(16) + [1] + Zeros(7) && Taken(s.bob) == [0, 0, 1]
  {
    var first, others: seq<u64> := [0], [0, 1];
    input := EncodeForFpga(first) + (EncodeForFpga(others) + []);
    assert Run(Apply, Init(input), []) == Some(Init(input));
    s := SendBatch(Init(input), input, first, EncodeForFpga(others) + []);
    s := SendBatch(s, input, others, []);
    EncodedZerosAndOne();
  }

  lemma EncodedZerosAndOne()
    ensures var first, others: seq<u64> := [0], [0, 1];
            [] + EncodeCounters(first) + EncodeCounters(others) == Zeros(16) + [1] + Zeros(7)
  {
    var first, one, others: seq<u64> := [0], [1], [0, 1];
    ToLeZero(8);
    ToLeZero(7);
    assert ToLe(1, 8) == [1] + ToLe(0, 7);
    assert others[1..] == one;
    assert EncodeCounters(first) == Zeros(8) + EncodeCounters([]);
    assert EncodeCounters(one) == [1] + Zeros(7) + EncodeCounters([]);
    assert EncodeCounters(others) == Zeros(8) + EncodeCounters(one);
    ZerosAdd(8, 8);
  }

  lemma {:induction false} ZerosAdd(j: nat, k: nat)
    ensures Zeros(j) + Zeros(k) == Zeros(j + k)
  {
    if j == 0 {
    } else {
      ZerosAdd(j - 1, k);
      assert Zeros(j) + Zeros(k) == [0] + (Zeros(j - 1) + Zeros(k));
    }
  }

  lemma {:induction false} OnlyBatch(parts: seq<seq<u64>>, gc: u64)
    requires Flatten(parts) == [gc] && forall i :: 0 <= i < |parts| ==> |parts[i]| >= 1
    ensures parts == [[gc]]
  {
    assert parts != [] && parts[0] + Flatten(parts[1..]) == [gc];
    assert Flatten(parts[1..]) == [] && parts[0] == [gc];
  }

  lemma DecodeOne(bs: seq<byte>)
    requires 8 <= |bs| < 16
    ensures Counters(bs) == [Word(bs[..8])]
  {
    assert |bs[8..]| < 8;
  }

  lemma {:induction false} ZerosAt(k: nat)
    ensures forall i :: 0 <= i < k ==> Zeros(k)[i] == 0
    ensures FromLe(Zeros(k)) == 0
  {
    if k == 0 {
    } else {
      ZerosAt(k - 1);
      assert Zeros(k)[1..] == Zeros(k - 1);
    }
  }

  /** A read that ends inside a counter, a top-up that delivers one byte of the missing seven, and the
      next read starts inside a counter: 2^48 reaches Alice where Bob took a 0. */
  lemma ShortTopUpMisplacesCounters() returns (s: State, input: seq<byte>)
    ensures Reachable(s, input) && s.alice.shortAt.Some?
    ensures Taken(s.bob) == [0, 0, 1] && AtAlice(s.alice) == [0, 0x1_0000_0000_0000]
  {
    s, input := ThreeCountersOnTheWire();
    var wire := s.wire;
    s := ShortRead(s, input, wire);
    StraddledCounter(wire);
    hide AtAlice, Taken, Counters, Reachable, Zeros;
    s := WriteAndRead(s, input, 0);
  }

  lemma WriteAndRead(s: State, input: seq<byte>, gc: u64) returns (t: State)
    requires Reachable(s, input) && |s.wire| >= 8 && Representable([gc])
    requires s.alice.fpga == [] && s.alice.pc == Writing([[gc]])
    ensures Reachable(t, input) && t.bob == s.bob && t.alice.shortAt == s.alice.shortAt
    ensures AtAlice(t.alice) == [gc] + Counters(s.wire[..8])
  {
    hide Clicks, EncodeCounters, EncodeForFpga, Counters;
    t := Go(Apply, Init(input), s, AliceWrite);
    t := Go(Apply, Init(input), t, AliceNext);
    t := Go(Apply, Init(input), t, AliceRead(8));
    FpgaRoundTrip([gc]);
    assert t.alice.fpga == EncodeForFpga([gc]);
    SubBatchesPending(t.alice, Counters(s.wire[..8]));
  }

  lemma ShortRead(s: State, input: seq<byte>, wire: seq<byte>) returns (t: State)
    requires Reachable(s, input) && s.alice == Init(input).alice && s.bob.open
    requires s.wire == wire == Zeros(16) + [1] + Zeros(7)
    ensures Reachable(t, input) && t.bob == s.bob && t.wire == wire[10..]
    ensures t.alice.shortAt.Some? && t.alice.fpga == [] && t.alice.pc == Writing([[0]])
  {
    FirstCounter(wire);
    assert |wire| == 24;
    hide Zeros, Counters, SubBatches, Reachable;
    t := ReadAndTopUp(s, input, wire);
  }

  lemma ReadAndTopUp(s: State, input: seq<byte>, wire: seq<byte>) returns (t: State)
    requires Reachable(s, input) && s.alice == Init(input).alice && s.bob.open
    requires s.wire == wire && |wire| > 10
    ensures Reachable(t, input) && t.bob == s.bob && t.wire == wire[10..]
    ensures t.alice.shortAt.Some? && t.alice.fpga == [] && t.alice.pc == Writing(SubBatches(Counters(wire[..10])))
  {
    hide Apply, Counters, SubBatches;
    var read;
    read, t := NineAndOne(s, wire);
    var u := Go(Apply, Init(input), s, AliceRead(9));
    u := Go(Apply, Init(input), read, AliceTopUp(1));
  }

  lemma NineAndOne(s: State, wire: seq<byte>) returns (read: State, t: State)
    requires s.alice == Init([]).alice && s.bob.open && s.wire == wire && |wire| > 10
    ensures Apply(s, AliceRead(9)) == Some(read) && Apply(read, AliceTopUp(1)) == Some(t)
    ensures t.bob == s.bob && t.wire == wire[10..]
    ensures t.alice.shortAt.Some? && t.alice.fpga == [] && t.alice.pc == Writing(SubBatches(Counters(wire[..10])))
  {
    hide Counters, SubBatches;
    var partial := wire[..9];
    read := Apply(s, AliceRead(9)).value;
    assert partial + read.wire[..1] == wire[..10] && read.wire[1..] == wire[10..];
    t := Apply(read, AliceTopUp(1)).value;
  }

  lemma FirstCounter(wire: seq<byte>)
    requires wire == Zeros(16) + [1] + Zeros(7)
    ensures Counters(wire[..10]) == [0] && SubBatches(Counters(wire[..10])) == [[0]]
  {
    DecodeOne(wire[..10]);
    ZerosAt(16);
    ZerosAt(8);
    assert wire[..10][..8] == Zeros(8);
    OnlyBatch(SubBatches([0]), 0);
  }

  lemma StraddledCounter(wire: seq<byte>)
    requires wire == Zeros(16) + [1] + Zeros(7)
    ensures Counters(wire[10..][..8]) == [0x1_0000_0000_0000]
  {
    var chunk := wire[10..][..8];
    StraddledWord(wire);
    DecodeOne(chunk);
    assert chunk[..8] == chunk;
  }

  lemma StraddledWord(wire: seq<byte>)
    requires wire == Zeros(16) + [1] + Zeros(7)
    ensures FromLe(wire[10..][..8]) == 0x1_0000_0000_0000
  {
    var one: seq<byte> := [1, 0];
    StraddledBytes(wire);
    assert FromLe(one) == 1 by { assert one[1..] == [0]; }
    assert Zeros(0) + one == one;
    hide FromLe, Zeros;
    ZeroFirst(0, one);
    ZeroFirst(1, one);
    ZeroFirst(2, one);
    ZeroFirst(3, one);
    ZeroFirst(4, one);
    ZeroFirst(5, one);
  }

  lemma StraddledBytes(wire: seq<byte>)
    requires wire == Zeros(16) + [1] + Zeros(7)
    ensures wire[10..][..8] == Zeros(6) + [1, 0]
  {
    ZerosAdd(10, 6);
    ZerosAdd(1, 6);
    assert Zeros(1) == [0];
    hide Zeros;
    assert wire == Zeros(10) + (Zeros(6) + [1, 0]) + Zeros(6);
  }

  lemma ZeroFirst(k: nat, bs: seq<byte>)
    ensures FromLe(Zeros(k + 1) + bs) == 256 * FromLe(Zeros(k) + bs)
  {
    assert (Zeros(k + 1) + bs)[1..] == Zeros(k) + bs;
  }
}
