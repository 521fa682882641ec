/** When exactly a top-up read that stops short puts counters out of order. Which steps of the pipeline
    are possible depends on lengths alone, so a schedule that runs on one input runs on every input of
    the same length, and whether it keeps the order on all of them can be told from its lengths. */
module GcShortReads {
  import opened Bytes
  import opened GcCodec
  import opened GcRecords
  import opened GcBatches
  import opened GcLoops
  import opened GcPipeline
  import opened Maybe
  import opened Runs

  // ---- schedules carry over from input to input ----

  predicate SamePc(p: AlicePc, q: AlicePc) {
    match (p, q)
    case (Idle, Idle) => true
    case (ToppingUp(a), ToppingUp(b)) => |a| == |b|
    case (Writing(a), Writing(b)) => |a| == |b| && forall i :: 0 <= i < |a| ==> |a[i]| == |b[i]|
    case (Gone, Gone) => true
    case _ => false
  }

  predicate SameBob(b: BobState, c: BobState) {
    && b.pc == c.pc && b.open == c.open && b.shortAt == c.shortAt && b.readLength == c.readLength
    && |b.device| == |c.device| && |b.consumed| == |c.consumed| && |b.taken| == |c.taken|
    && |b.batch| == |c.batch| && |b.unsent| == |c.unsent|
  }

  predicate SameAlice(a: AliceState, b: AliceState) {
    && SamePc(a.pc, b.pc) && a.intact == b.intact && a.shortAt == b.shortAt && a.position == b.position
    && |a.fpga| == |b.fpga|
  }

  /** The states differ only in the values of bytes, clicks and counters. */
  predicate SameShape(s: State, t: State) {
    SameBob(s.bob, t.bob) && |s.wire| == |t.wire| && SameAlice(s.alice, t.alice)
  }

  lemma SubBatchesSameShape(x: seq<u64>, y: seq<u64>)
    requires |x| == |y|
    ensures SamePc(Writing(SubBatches(x)), Writing(SubBatches(y)))
  {
    var nums := Decompose(|x|, LOG_BATCHSIZE);
    DecomposeSum(|x|, LOG_BATCHSIZE);
    SlicesPartition(x, nums);
    SlicesPartition(y, nums);
  }

  lemma BobStepShape(s: State, t: State, step: Step)
    requires SameShape(s, t) && Apply(s, step).Some?
    requires step.BobRead? || step.BobSend? || step.BobFile? || step.BobRecord? || step.BobClose?
    ensures Apply(t, step).Some? && SameShape(Apply(s, step).value, Apply(t, step).value)
  {
    hide EncodeCounters, EncodeForFpga, Clicks, NextReadLength, FpgaCounters;
  }

  lemma AliceReadShape(s: State, t: State, n: nat)
    requires SameShape(s, t) && CanAliceRead(s, n)
    ensures CanAliceRead(t, n) && SameShape(AfterAliceRead(s, n), AfterAliceRead(t, n))
  {
    hide Counters, SubBatches;
    SubBatchesSameShape(Counters(s.wire[..n]), Counters(t.wire[..n]));
  }

  lemma AliceTopUpShape(s: State, t: State, m: nat)
    requires SameShape(s, t) && CanTopUp(s, m)
    ensures CanTopUp(t, m) && Missing(s.alice.pc.partial) == Missing(t.alice.pc.partial)
    ensures SameShape(AfterShortTopUp(s, m), AfterShortTopUp(t, m))
    ensures m == Missing(s.alice.pc.partial) ==> SameShape(AfterTopUp(s), AfterTopUp(t))
  {
    hide Counters, SubBatches;
    SubBatchesSameShape(Counters(s.alice.pc.partial + s.wire[..m]), Counters(t.alice.pc.partial + t.wire[..m]));
  }

  lemma AliceStepShape(s: State, t: State, step: Step)
    requires SameShape(s, t) && Apply(s, step).Some?
    requires !(step.BobRead? || step.BobSend? || step.BobFile? || step.BobRecord? || step.BobClose?)
    ensures Apply(t, step).Some? && SameShape(Apply(s, step).value, Apply(t, step).value)
  {
    hide EncodeForFpga, AfterAliceRead, AfterTopUp, AfterShortTopUp, CanAliceRead, CanTopUp, Missing;
    match step
    case AliceRead(n) => AliceReadShape(s, t, n);
    case AliceTopUp(m) => AliceTopUpShape(s, t, m);
    case AliceWrite => assert SamePc(s.alice.pc, t.alice.pc);
    case AliceNext =>
    case AliceStop =>
    case AliceEof =>
  }

  lemma StepShape(s: State, t: State, step: Step)
    requires SameShape(s, t) && Apply(s, step).Some?
    ensures Apply(t, step).Some? && SameShape(Apply(s, step).value, Apply(t, step).value)
  {
    if step.BobRead? || step.BobSend? || step.BobFile? || step.BobRecord? || step.BobClose? {
      BobStepShape(s, t, step);
    } else {
      AliceStepShape(s, t, step);
    }
  }

  lemma {:induction false} RunShape(s: State, t: State, steps: seq<Step>)
    requires SameShape(s, t) && Run(Apply, s, steps).Some?
    ensures Run(Apply, t, steps).Some? && SameShape(Run(Apply, s, steps).value, Run(Apply, t, steps).value)
    decreases |steps|
  {
    hide Apply;
    if steps == [] {
    } else {
      StepShape(s, t, steps[0]);
      RunShape(Apply(s, steps[0]).value, Apply(t, steps[0]).value, steps[1..]);
    }
  }

  // ---- any counters can be what Bob reads ----

  /** The lengths of Bob's reads in a schedule. */
  function Lens(steps: seq<Step>): seq<nat> {
    if steps == [] then []
    else (if steps[0].BobRead? then [steps[0].len] else []) + Lens(steps[1..])
  }

  /** The clicks of a click fifo that is read in chunks of these lengths; a record that a chunk ends
      inside is dropped. */
  function ClicksOfChunks(bs: seq<byte>, lens: seq<nat>): seq<Click>
    decreases |lens|
  {
    if lens == [] || lens[0] > |bs| then []
    else Clicks(bs[..lens[0]]) + ClicksOfChunks(bs[lens[0]..], lens[1..])
  }

  function CountOfChunks(lens: seq<nat>): nat
    decreases |lens|
  {
    if lens == [] then 0 else lens[0] / 16 + CountOfChunks(lens[1..])
  }

  lemma TakenOfStep(s: State, step: Step)
    requires Apply(s, step).Some?
    ensures var b, c := s.bob, Apply(s, step).value.bob;
            if step.BobRead? then
              step.len <= |b.device| && c.device == b.device[step.len..]
              && c.taken == b.taken + Clicks(b.device[..step.len])
            else c.device == b.device && c.taken == b.taken
  {
    hide Clicks, EncodeCounters, EncodeForFpga, NextReadLength;
  }

  lemma {:induction false} TakenOfRun(s: State, steps: seq<Step>)
    requires Run(Apply, s, steps).Some?
    ensures Sum(Lens(steps)) <= |s.bob.device|
    ensures Run(Apply, s, steps).value.bob.taken == s.bob.taken + ClicksOfChunks(s.bob.device, Lens(steps))
    decreases |steps|
  {
    hide Clicks, Apply, ClicksOfChunks, Sum;
    if steps == [] {
      NoChunks(s.bob.device);
    } else {
      var t := Apply(s, steps[0]).value;
      var device, rest := s.bob.device, Lens(steps[1..]);
      TakenOfStep(s, steps[0]);
      TakenOfRun(t, steps[1..]);
      if steps[0].BobRead? {
        var first := Clicks(device[..steps[0].len]);
        FirstChunk(device, steps[0].len, rest);
        assert s.bob.taken + first + ClicksOfChunks(t.bob.device, rest)
            == s.bob.taken + (first + ClicksOfChunks(t.bob.device, rest));
      } else {
        assert Lens(steps) == rest;
      }
    }
  }

  lemma NoChunks(bs: seq<byte>)
    ensures ClicksOfChunks(bs, []) == [] && Sum([]) == 0
  {
  }

  lemma FirstChunk(bs: seq<byte>, len: nat, rest: seq<nat>)
    requires len <= |bs|
    ensures ClicksOfChunks(bs, [len] + rest) == Clicks(bs[..len]) + ClicksOfChunks(bs[len..], rest)
    ensures Sum([len] + rest) == len + Sum(rest)
  {
    assert ([len] + rest)[1..] == rest;
  }

  lemma {:induction false} ChunksOfLength(bs: seq<byte>, lens: seq<nat>)
    requires Sum(lens) <= |bs|
    ensures |ClicksOfChunks(bs, lens)| == CountOfChunks(lens)
    decreases |lens|
  {
    if lens == [] {
    } else {
      ChunksOfLength(bs[lens[0]..], lens[1..]);
    }
  }

  /** A chunk of the given length whose whole records carry these counters. */
  lemma OneChunk(len: nat, gcs: seq<u64>) returns (bs: seq<byte>)
    requires |gcs| == len / 16 && Representable(gcs)
    ensures |bs| == len && Gcs(Clicks(bs)) == gcs
  {
    var rest := Zeros(len % 16);
    bs := EncodeForFpga(gcs) + rest;
    FpgaRoundTrip(gcs);
    ClicksConcat(EncodeForFpga(gcs), rest);
    assert Clicks(rest) == [];
    assert Clicks(bs) == Clicks(EncodeForFpga(gcs));
  }

  /** Whatever counters Bob is to read, there is an input of the right length for it. */
  lemma {:induction false} Realise(lens: seq<nat>, n: nat, gcs: seq<u64>) returns (bs: seq<byte>)
    requires Sum(lens) <= n && |gcs| == CountOfChunks(lens) && Representable(gcs)
    ensures |bs| == n && Gcs(ClicksOfChunks(bs, lens)) == gcs
    decreases |lens|
  {
    if lens == [] {
      bs := Zeros(n);
    } else {
      var count := lens[0] / 16;
      var chunk := OneChunk(lens[0], gcs[..count]);
      var rest := Realise(lens[1..], n - lens[0], gcs[count..]);
      bs := chunk + rest;
      assert bs[..lens[0]] == chunk && bs[lens[0]..] == rest;
      GcsConcat(Clicks(chunk), ClicksOfChunks(rest, lens[1..]));
      assert gcs[..count] + gcs[count..] == gcs;
    }
  }

  // ---- where a displaced counter comes from ----

  /** What Bob puts on the link for the clicks he has taken so far. */
  function Sent(b: BobState): seq<byte> {
    EncodeCounters(Taken(b))
  }

  /** Where on the link the array begins that Alice decodes next. */
  function Start(a: AliceState): int {
    a.position - |Partial(a.pc)|
  }

  /** The part of a counter that Alice holds. */
  function Partial(pc: AlicePc): seq<byte> {
    if pc.ToppingUp? then pc.partial else []
  }

  /** w, as an FPGA takes it, is what stands at offset off on the link. */
  predicate DecodedAt(sent: seq<byte>, off: nat, w: u64) {
    off + 8 <= |sent| && w % TWO_TO_THE_49 == Word(sent[off..off + 8]) % TWO_TO_THE_49
  }

  /** w was decoded past the place of counter k. */
  ghost predicate Displaced(sent: seq<byte>, w: u64, k: nat) {
    exists off :: 8 * k < off && DecodedAt(sent, off, w)
  }

  ghost predicate OnTheWay(sent: seq<byte>, position: nat, wire: seq<byte>, unsent: seq<byte>) {
    position <= |sent| && wire + unsent == sent[position..]
  }

  ghost predicate Held(sent: seq<byte>, position: nat, partial: seq<byte>) {
    |partial| % 8 != 0 && |partial| <= position <= |sent| && partial == sent[position - |partial|..position]
  }

  /** The link carries what Bob sends, from Alice's position on, and a partial counter she holds came
      just before that. */
  ghost predicate WireInv(s: State) {
    && |s.alice.fpga| % 16 == 0
    && (!s.alice.pc.Gone? ==> OnTheWay(Sent(s.bob), s.alice.position, s.wire, s.bob.unsent))
    && (s.alice.pc.ToppingUp? ==> Held(Sent(s.bob), s.alice.position, s.alice.pc.partial))
  }

  /** The first k counters are in order and the next, if any, is displaced. */
  ghost predicate ShiftInv(s: State, k: nat) {
    && k <= |AtAlice(s.alice)| && AtAlice(s.alice)[..k] <= Taken(s.bob)
    && (!s.alice.pc.Gone? ==> Start(s.alice) > 8 * k)
    && (|AtAlice(s.alice)| > k ==> Displaced(Sent(s.bob), AtAlice(s.alice)[k], k))
  }

  ghost predicate LinkInv(s: State) {
    WireInv(s) && (s.alice.shortAt.Some? ==> ShiftInv(s, s.alice.shortAt.value))
  }

  ghost predicate ShortInv(s: State, input: seq<byte>) {
    Inv(s, input) && LinkInv(s)
  }

  lemma ShortInvInit(input: seq<byte>)
    ensures ShortInv(Init(input), input)
  {
    InitInv(input);
    assert Taken(Init(input).bob) == [];
  }

  lemma DisplacedGrows(sent: seq<byte>, more: seq<byte>, w: u64, k: nat)
    requires Displaced(sent, w, k)
    ensures Displaced(sent + more, w, k)
  {
    var off :| 8 * k < off && DecodedAt(sent, off, w);
    assert (sent + more)[off..off + 8] == sent[off..off + 8];
    assert DecodedAt(sent + more, off, w);
  }

  /** The first counter of an array that begins at `start` on the link. */
  lemma FirstOfArray(sent: seq<byte>, start: nat, chunk: seq<byte>, k: nat)
    requires start + |chunk| <= |sent| && chunk == sent[start..start + |chunk|]
    requires |chunk| >= 8 && start > 8 * k
    ensures Displaced(sent, Counters(chunk)[0], k)
  {
    assert chunk[..8] == sent[start..start + 8];
    assert DecodedAt(sent, start, Counters(chunk)[0]);
  }

  /** Once out of step, an array that begins further on the link leaves the first k counters alone. */
  lemma ArrayKeepsShift(s: State, t: State, start: nat, chunk: seq<byte>, k: nat)
    requires ShiftInv(s, k) && t.bob == s.bob && start > 8 * k
    requires start + |chunk| <= |Sent(s.bob)| && chunk == Sent(s.bob)[start..start + |chunk|]
    requires AtAlice(t.alice) == AtAlice(s.alice) + Counters(chunk)
    requires t.alice.pc.Gone? || Start(t.alice) > 8 * k
    ensures ShiftInv(t, k)
  {
    hide EncodeCounters, Gcs, FpgaCounters, Pending, AtAlice, Counters;
    var before, more := AtAlice(s.alice), Counters(chunk);
    assert (before + more)[..k] == before[..k];
    if |before| > k {
      assert (before + more)[k] == before[k];
    } else if more != [] {
      FirstOfArray(Sent(s.bob), start, chunk, k);
      assert (before + more)[k] == more[0];
    }
  }

  // ---- every step keeps it ----

  lemma SentGrows(s: State, len: nat, timeMs: nat)
    requires CanBobRead(s.bob, len)
    ensures Sent(AfterBobRead(s.bob, len, timeMs)) == Sent(s.bob) + ToAlice(s.bob.device[..len])
  {
    hide EncodeCounters, Clicks, NextReadLength;
    GcsConcat(s.bob.taken, Clicks(s.bob.device[..len]));
    EncodeCountersConcat(Taken(s.bob), Gcs(Clicks(s.bob.device[..len])));
  }

  lemma OnTheWayGrows(sent: seq<byte>, position: nat, wire: seq<byte>, more: seq<byte>)
    requires OnTheWay(sent, position, wire, [])
    ensures OnTheWay(sent + more, position, wire, more)
  {
    assert wire + [] == wire;
    assert (sent + more)[position..] == sent[position..] + more;
  }

  lemma HeldGrows(sent: seq<byte>, position: nat, partial: seq<byte>, more: seq<byte>)
    requires Held(sent, position, partial)
    ensures Held(sent + more, position, partial)
  {
    var q := position - |partial|;
    assert (sent + more)[q..position] == sent[q..position];
  }

  lemma OnTheWayTaken(sent: seq<byte>, p: nat, wire: seq<byte>, unsent: seq<byte>, m: nat)
    requires OnTheWay(sent, p, wire, unsent) && m <= |wire|
    ensures p + m <= |sent| && wire[..m] == sent[p..p + m] && OnTheWay(sent, p + m, wire[m..], unsent)
  {
    assert sent[p..][..m] == sent[p..p + m] && sent[p..][m..] == sent[p + m..];
    assert (wire + unsent)[..m] == wire[..m] && (wire + unsent)[m..] == wire[m..] + unsent;
  }

  lemma OnTheWaySent(sent: seq<byte>, p: nat, wire: seq<byte>, unsent: seq<byte>, k: nat)
    requires OnTheWay(sent, p, wire, unsent) && k <= |unsent|
    ensures OnTheWay(sent, p, wire + unsent[..k], unsent[k..])
  {
    assert (wire + unsent[..k]) + unsent[k..] == wire + unsent;
  }

  /** What a read, or a top-up read after a partial one, leaves in Alice's buffer. */
  lemma ChunkTaken(
    sent: seq<byte>, start: nat, p: nat, end: nat, partial: seq<byte>, wire: seq<byte>, unsent: seq<byte>)
    requires OnTheWay(sent, p, wire, unsent) && start <= p <= end <= p + |wire|
    requires partial == sent[start..p]
    ensures end <= |sent| && partial + wire[..end - p] == sent[start..end]
  {
    OnTheWayTaken(sent, p, wire, unsent, end - p);
    assert sent[start..p] + sent[p..end] == sent[start..end];
  }

  lemma BobReadKeepsWire(s: State, len: nat, timeMs: nat)
    requires WireInv(s) && BobInv(s.bob) && CanBobRead(s.bob, len)
    ensures WireInv(s.(bob := AfterBobRead(s.bob, len, timeMs)))
  {
    var more := ToAlice(s.bob.device[..len]);
    SentGrows(s, len, timeMs);
    ReadsWithNothingUnsent(s.bob, len, timeMs);
    hide Sent, ToAlice, BobInv, OnTheWay, Held;
    if !s.alice.pc.Gone? {
      OnTheWayGrows(Sent(s.bob), s.alice.position, s.wire, more);
    }
    if s.alice.pc.ToppingUp? {
      HeldGrows(Sent(s.bob), s.alice.position, s.alice.pc.partial, more);
    }
  }

  lemma ReadsWithNothingUnsent(b: BobState, len: nat, timeMs: nat)
    requires BobInv(b) && CanBobRead(b, len)
    ensures b.unsent == [] && AfterBobRead(b, len, timeMs).unsent == ToAlice(b.device[..len])
  {
  }

  lemma BobReadKeepsShift(s: State, len: nat, timeMs: nat, k: nat)
    requires ShiftInv(s, k) && CanBobRead(s.bob, len)
    ensures ShiftInv(s.(bob := AfterBobRead(s.bob, len, timeMs)), k)
  {
    var t, clicks := s.(bob := AfterBobRead(s.bob, len, timeMs)), Clicks(s.bob.device[..len]);
    SentGrows(s, len, timeMs);
    GcsConcat(s.bob.taken, clicks);
    hide Sent, ToAlice, FpgaCounters, Gcs, Clicks, NextReadLength, AtAlice;
    assert t.bob.taken == s.bob.taken + clicks;
    if |AtAlice(s.alice)| > k {
      DisplacedGrows(Sent(s.bob), ToAlice(s.bob.device[..len]), AtAlice(s.alice)[k], k);
    }
  }

  lemma BobSendKeepsWire(s: State, k: nat)
    requires WireInv(s) && CanBobSend(s.bob, k)
    ensures WireInv(Apply(s, BobSend(k)).value)
  {
    hide EncodeCounters, OnTheWay, Held;
    var t := Apply(s, BobSend(k)).value;
    assert Sent(t.bob) == Sent(s.bob);
    if !s.alice.pc.Gone? {
      OnTheWaySent(Sent(s.bob), s.alice.position, s.wire, s.bob.unsent, k);
    }
  }

  /** A step that touches neither the link nor what was sent. */
  lemma ElsewhereKeepsShort(s: State, t: State)
    requires t.alice == s.alice && t.wire == s.wire && t.bob.taken == s.bob.taken && t.bob.unsent == s.bob.unsent
    ensures WireInv(s) ==> WireInv(t)
    ensures forall k :: ShiftInv(s, k) ==> ShiftInv(t, k)
  {
    hide EncodeCounters, OnTheWay, Held, Displaced;
    assert Sent(t.bob) == Sent(s.bob) && Taken(t.bob) == Taken(s.bob);
  }

  lemma BobSendKeepsShift(s: State, k: nat)
    requires CanBobSend(s.bob, k)
    ensures var t := Apply(s, BobSend(k)).value; forall j :: ShiftInv(s, j) ==> ShiftInv(t, j)
  {
    hide EncodeCounters, Displaced;
    var t := Apply(s, BobSend(k)).value;
    assert Sent(t.bob) == Sent(s.bob) && Taken(t.bob) == Taken(s.bob);
  }

  lemma BobStepKeepsShort(s: State, step: Step)
    requires BobInv(s.bob) && LinkInv(s) && Apply(s, step).Some?
    requires step.BobRead? || step.BobSend? || step.BobFile? || step.BobRecord? || step.BobClose?
    ensures LinkInv(Apply(s, step).value)
  {
    hide EncodeForFpga, WireInv, ShiftInv, BobInv, AfterBobRead;
    match step
    case BobRead(len, timeMs) =>
      BobReadKeepsWire(s, len, timeMs);
      if s.alice.shortAt.Some? { BobReadKeepsShift(s, len, timeMs, s.alice.shortAt.value); }
    case BobSend(k) =>
      BobSendKeepsWire(s, k);
      BobSendKeepsShift(s, k);
    case BobFile => ElsewhereKeepsShort(s, Apply(s, step).value);
    case BobRecord => ElsewhereKeepsShort(s, Apply(s, step).value);
    case BobClose => ElsewhereKeepsShort(s, Apply(s, step).value);
  }

  /** Alice has taken m more bytes off the wire and decoded the array that ends there. */
  ghost predicate Decoded(s: State, t: State, m: nat, chunk: seq<byte>) {
    && m <= |s.wire| && t.bob == s.bob && t.wire == s.wire[m..]
    && t.alice.position == s.alice.position + m && t.alice.fpga == s.alice.fpga
    && chunk == Partial(s.alice.pc) + s.wire[..m]
    && (t.alice.pc == Writing(SubBatches(Counters(chunk))) || (t.alice.pc.Gone? && |chunk| < 8))
    && (s.alice.pc.Idle? || s.alice.pc.ToppingUp?)
  }

  lemma DecodedKeepsWire(s: State, t: State, m: nat, chunk: seq<byte>)
    requires WireInv(s) && Decoded(s, t, m, chunk)
    ensures WireInv(t)
  {
    PartialIsHeld(s);
    hide EncodeCounters, Counters, Flatten, Sent, FpgaCounters, OnTheWay, Held, SubBatches, Partial;
    OnTheWayTaken(Sent(s.bob), s.alice.position, s.wire, s.bob.unsent, m);
  }

  lemma DecodedFrom(s: State, t: State, m: nat, chunk: seq<byte>)
    requires WireInv(s) && Decoded(s, t, m, chunk)
    ensures Start(s.alice) >= 0 && Start(s.alice) + |chunk| == t.alice.position <= |Sent(s.bob)|
    ensures chunk == Sent(s.bob)[Start(s.alice)..t.alice.position]
  {
    hide SubBatches, Counters, FpgaCounters, Clicks, Flatten, Sent, OnTheWay, Held, WireInv;
    PartialIsHeld(s);
    var sent, partial, p, end := Sent(s.bob), Partial(s.alice.pc), s.alice.position, t.alice.position;
    assert end == p + m && chunk == partial + s.wire[..end - p];
    hide Decoded, Partial;
    ChunkTaken(sent, p - |partial|, p, end, partial, s.wire, s.bob.unsent);
  }

  lemma PartialIsHeld(s: State)
    requires WireInv(s) && !s.alice.pc.Gone?
    ensures var p, partial := s.alice.position, Partial(s.alice.pc);
            |partial| <= p <= |Sent(s.bob)| && partial == Sent(s.bob)[p - |partial|..p]
    ensures OnTheWay(Sent(s.bob), s.alice.position, s.wire, s.bob.unsent)
  {
    hide EncodeCounters;
  }

  lemma DecodedArrives(s: State, t: State, m: nat, chunk: seq<byte>)
    requires Decoded(s, t, m, chunk)
    ensures AtAlice(t.alice) == AtAlice(s.alice) + Counters(chunk)
  {
    hide EncodeCounters, Counters, Flatten, FpgaCounters, SubBatches;
    NothingPending(s.alice);
    if t.alice.pc.Gone? {
      NoCounters(chunk);
      NothingPending(t.alice);
    } else {
      SubBatchesPending(t.alice, Counters(chunk));
    }
  }

  lemma DecodedKeepsShift(s: State, t: State, m: nat, chunk: seq<byte>, k: nat)
    requires WireInv(s) && Decoded(s, t, m, chunk) && ShiftInv(s, k)
    ensures ShiftInv(t, k)
  {
    hide WireInv, Sent, SubBatches, Counters, FpgaCounters, Clicks, Flatten, Displaced, Taken, Gcs;
    DecodedFrom(s, t, m, chunk);
    DecodedArrives(s, t, m, chunk);
    assert Start(s.alice) > 8 * k && Start(t.alice) == t.alice.position;
    hide ShiftInv, Decoded, AtAlice, Start;
    ArrayKeepsShift(s, t, Start(s.alice), chunk, k);
  }

  lemma PartialReadKeeps(s: State, n: nat)
    requires WireInv(s) && CanAliceRead(s, n) && n % 8 != 0
    ensures var t := AfterAliceRead(s, n); WireInv(t) && forall k :: ShiftInv(s, k) ==> ShiftInv(t, k)
  {
    var t := AfterAliceRead(s, n);
    hide EncodeCounters, Counters, SubBatches, Sent, FpgaCounters, Displaced;
    OnTheWayTaken(Sent(s.bob), s.alice.position, s.wire, s.bob.unsent, n);
    NothingPending(s.alice);
    NothingPending(t.alice);
  }

  lemma FirstShortDelivers(s: State, m: nat)
    requires AliceInv(s) && s.alice.intact && CanTopUp(s, m) && m < Missing(s.alice.pc.partial)
    ensures var at := AtAlice(AfterShortTopUp(s, m).alice);
            at <= Taken(s.bob) && |at| == |AtAlice(s.alice)| + |s.alice.pc.partial + s.wire[..m]| / 8
  {
    var t, partial := AfterShortTopUp(s, m), s.alice.pc.partial;
    var received, rest := partial + s.wire[..m], s.wire[m..] + s.bob.unsent;
    Regroup(partial, s.wire, s.bob.unsent, m);
    assert InFlight(s) == received + rest;
    DecodedArrives(s, t, m, received);
    hide EncodeCounters, Counters, SubBatches, FpgaCounters, Flatten, AtAlice, Taken;
    LinkCutShort(Taken(s.bob), AtAlice(s.alice), received, rest);
  }

  lemma FirstShortStarts(s: State, m: nat)
    requires AliceInv(s) && s.alice.intact && WireInv(s) && CanTopUp(s, m) && m < Missing(s.alice.pc.partial)
    ensures ShiftInv(AfterShortTopUp(s, m), |s.alice.fpga| / 16 + |s.alice.pc.partial + s.wire[..m]| / 8)
  {
    hide AliceInv, WireInv, ShiftInv, Taken, Missing, SubBatches, Counters, FpgaCounters, Clicks, Flatten;
    FirstShortDelivers(s, m);
    NothingPending(s.alice);
    StartIsAligned(s);
    ShortIsNoMultiple(s.alice.pc.partial, m);
    var t := AfterShortTopUp(s, m);
    var r := |s.alice.pc.partial + s.wire[..m]|;
    assert t.alice.position == 8 * |AtAlice(s.alice)| + r && !t.alice.pc.ToppingUp?;
    hide AfterShortTopUp, AtAlice, CanTopUp;
    AllInOrder(t, |AtAlice(s.alice)| + r / 8);
  }

  lemma ShortIsNoMultiple(partial: seq<byte>, m: nat)
    requires m < Missing(partial)
    ensures (|partial| + m) % 8 != 0
  {
  }

  lemma AllInOrder(t: State, k: nat)
    requires AtAlice(t.alice) <= Taken(t.bob) && |AtAlice(t.alice)| == k
    requires !t.alice.pc.ToppingUp? && t.alice.position > 8 * k
    ensures ShiftInv(t, k)
  {
    hide AtAlice, Taken;
    assert AtAlice(t.alice)[..k] == AtAlice(t.alice);
  }

  lemma Regroup(partial: seq<byte>, wire: seq<byte>, unsent: seq<byte>, m: nat)
    requires m <= |wire|
    ensures (partial + wire[..m]) + (wire[m..] + unsent) == partial + (wire + unsent)
  {
    assert wire[..m] + wire[m..] == wire;
  }

  lemma StartIsAligned(s: State)
    requires AliceInv(s) && WireInv(s) && s.alice.pc.ToppingUp?
    ensures Start(s.alice) == 8 * |AtAlice(s.alice)|
  {
    hide FpgaCounters;
    var g, at := Taken(s.bob), AtAlice(s.alice);
    assert |InFlight(s)| == 8 * (|g| - |at|);
    assert |s.wire + s.bob.unsent| == 8 * |g| - s.alice.position;
  }

  // ---- a write takes a counter modulo 2^49 ----

  lemma {:induction false} FpgaTakesLow(gcs: seq<u64>)
    ensures |FpgaCounters(EncodeForFpga(gcs))| == |gcs|
    ensures forall i :: 0 <= i < |gcs| ==> FpgaCounters(EncodeForFpga(gcs))[i] == gcs[i] % TWO_TO_THE_49
  {
    if gcs == [] {
    } else {
      var head, bs := GcForFpga(gcs[0]), EncodeForFpga(gcs);
      SplitAfterFormat(gcs[0]);
      FpgaTakesLow(gcs[1..]);
      assert bs[..8] == head[..8] && bs[16..] == EncodeForFpga(gcs[1..]);
      var cs := Clicks(bs);
      assert cs[0].gc == gcs[0] % TWO_TO_THE_49 && cs[1..] == Clicks(EncodeForFpga(gcs[1..]));
      assert forall i :: 1 <= i < |cs| ==> cs[i].gc == Gcs(cs[1..])[i - 1];
    }
  }

  /** The same counters, up to what an FPGA can hold. */
  ghost predicate SameLow(x: seq<u64>, y: seq<u64>) {
    |x| == |y| && forall i :: 0 <= i < |x| ==>
      x[i] % TWO_TO_THE_49 == y[i] % TWO_TO_THE_49 && (x[i] < TWO_TO_THE_49 ==> y[i] == x[i])
  }

  lemma WriteKeepsLow(fpga: seq<byte>, batches: seq<seq<u64>>)
    requires |fpga| % 16 == 0 && batches != []
    ensures SameLow(FpgaCounters(fpga) + Flatten(batches),
                    FpgaCounters(fpga + EncodeForFpga(batches[0])) + Flatten(batches[1..]))
  {
    hide Clicks, EncodeForFpga;
    var log, first, later := Clicks(fpga), batches[0], Flatten(batches[1..]);
    var written := Clicks(EncodeForFpga(first));
    ClicksConcat(fpga, EncodeForFpga(first));
    GcsConcat(log, written);
    FpgaTakesLow(first);
    LowInTheMiddle(Gcs(log), first, Gcs(written), later);
  }

  lemma LowInTheMiddle(a: seq<u64>, b: seq<u64>, c: seq<u64>, d: seq<u64>)
    requires |b| == |c| && forall i :: 0 <= i < |b| ==> c[i] == b[i] % TWO_TO_THE_49
    ensures SameLow(a + (b + d), (a + c) + d)
  {
  }

  lemma WriteKeepsShift(s: State, k: nat)
    requires ShiftInv(s, k) && s.alice.pc.Writing? && s.alice.pc.batches != [] && |s.alice.fpga| % 16 == 0
    requires Representable(Taken(s.bob))
    ensures ShiftInv(AfterAliceWrite(s), k)
  {
    hide Clicks, EncodeForFpga, EncodeCounters, FpgaCounters;
    var t := AfterAliceWrite(s);
    var x, y := AtAlice(s.alice), AtAlice(t.alice);
    assert SameLow(x, y) by { WriteKeepsLow(s.alice.fpga, s.alice.pc.batches); }
    assert y[..k] == x[..k];
    if |x| > k {
      var off :| 8 * k < off && DecodedAt(Sent(s.bob), off, x[k]);
      assert DecodedAt(Sent(t.bob), off, y[k]);
    }
  }

  // ---- Alice's steps keep it ----

  lemma ReadKeepsShort(s: State, n: nat)
    requires LinkInv(s) && CanAliceRead(s, n)
    ensures LinkInv(AfterAliceRead(s, n))
  {
    hide WireInv, ShiftInv, Counters, SubBatches;
    var t, chunk := AfterAliceRead(s, n), s.wire[..n];
    if n % 8 == 0 {
      assert [] + chunk == chunk;
      assert Decoded(s, t, n, chunk);
      DecodedKeepsWire(s, t, n, chunk);
      if s.alice.shortAt.Some? { DecodedKeepsShift(s, t, n, chunk, s.alice.shortAt.value); }
    } else {
      PartialReadKeeps(s, n);
    }
  }

  lemma TopUpKeepsShort(s: State)
    requires LinkInv(s) && s.alice.pc.ToppingUp? && CanTopUp(s, Missing(s.alice.pc.partial))
    ensures LinkInv(AfterTopUp(s))
  {
    hide WireInv, ShiftInv, Counters, SubBatches, Clicks, FpgaCounters, Flatten;
    var t, m := AfterTopUp(s), Missing(s.alice.pc.partial);
    var chunk := s.alice.pc.partial + s.wire[..m];
    assert Decoded(s, t, m, chunk);
    DecodedKeepsWire(s, t, m, chunk);
    if s.alice.shortAt.Some? { DecodedKeepsShift(s, t, m, chunk, s.alice.shortAt.value); }
  }

  lemma ShortTopUpKeepsShort(s: State, m: nat)
    requires LinkInv(s) && CanTopUp(s, m) && m < Missing(s.alice.pc.partial)
    requires s.alice.shortAt.None? ==> AliceInv(s)
    ensures LinkInv(AfterShortTopUp(s, m))
  {
    hide WireInv, ShiftInv, AliceInv, Counters, SubBatches, Clicks, FpgaCounters, Flatten, Missing;
    ToppingUpMeansIntact(s);
    var t, chunk := AfterShortTopUp(s, m), s.alice.pc.partial + s.wire[..m];
    assert Decoded(s, t, m, chunk);
    DecodedKeepsWire(s, t, m, chunk);
    if s.alice.shortAt.Some? {
      DecodedKeepsShift(s, t, m, chunk, s.alice.shortAt.value);
    } else if t.alice.shortAt.Some? {
      FirstShortStarts(s, m);
    }
  }

  lemma ToppingUpMeansIntact(s: State)
    requires s.alice.pc.ToppingUp?
    ensures AliceInv(s) ==> s.alice.intact
  {
  }

  lemma WriteKeepsShort(s: State)
    requires LinkInv(s) && s.alice.pc.Writing? && s.alice.pc.batches != [] && Representable(Taken(s.bob))
    ensures LinkInv(AfterAliceWrite(s))
  {
    hide EncodeForFpga, Sent, ShiftInv, OnTheWay, Held;
    if s.alice.shortAt.Some? { WriteKeepsShift(s, s.alice.shortAt.value); }
  }

  lemma LeavingKeepsShort(s: State, t: State)
    requires LinkInv(s) && t.bob == s.bob && AtLoopTop(s.alice)
    requires (t.alice.pc.Idle? && t.wire == s.wire) || t.alice.pc.Gone?
    requires t.alice.shortAt == s.alice.shortAt && t.alice.position == s.alice.position && t.alice.fpga == s.alice.fpga
    ensures LinkInv(t)
  {
    hide Sent, Displaced, OnTheWay, Held, FpgaCounters;
    NothingPending(s.alice);
    NothingPending(t.alice);
  }

  lemma AliceStepKeepsShort(s: State, step: Step)
    requires LinkInv(s) && BobInv(s.bob) && (s.alice.shortAt.None? ==> AliceInv(s)) && Apply(s, step).Some?
    requires !(step.BobRead? || step.BobSend? || step.BobFile? || step.BobRecord? || step.BobClose?)
    ensures LinkInv(Apply(s, step).value)
  {
    assert Representable(Taken(s.bob));
    hide LinkInv, AliceInv, BobInv, AfterAliceRead, AfterTopUp, AfterShortTopUp, AfterAliceWrite, Missing, Taken;
    match step
    case AliceRead(n) => ReadKeepsShort(s, n);
    case AliceTopUp(m) =>
      if m == Missing(s.alice.pc.partial) { TopUpKeepsShort(s); } else { ShortTopUpKeepsShort(s, m); }
    case AliceWrite => WriteKeepsShort(s);
    case AliceNext => LeavingKeepsShort(s, Apply(s, step).value);
    case AliceStop => LeavingKeepsShort(s, Apply(s, step).value);
    case AliceEof => LeavingKeepsShort(s, Apply(s, step).value);
  }

  lemma StepKeepsShort(s: State, step: Step, input: seq<byte>)
    requires ShortInv(s, input) && Apply(s, step).Some?
    ensures ShortInv(Apply(s, step).value, input)
  {
    StepKeepsInv(s, step, input);
    hide LinkInv, AliceInv, BobInv, Apply;
    if step.BobRead? || step.BobSend? || step.BobFile? || step.BobRecord? || step.BobClose? {
      BobStepKeepsShort(s, step);
    } else {
      AliceStepKeepsShort(s, step);
    }
  }

  // ---- the input that tells ----

  /** All counters 0 but one, whose byte 6 on the link is 1. */
  function OneBit(n: nat, k: nat): (gcs: seq<u64>)
    ensures |gcs| == n && Representable(gcs)
  {
    seq(n, i => if i == k then 0x1_0000_0000_0000 else 0)
  }

  lemma {:induction false} EncodedByte(gcs: seq<u64>, j: nat, r: nat)
    requires j < |gcs| && r < 8
    ensures EncodeCounters(gcs)[8 * j + r] == ToLe(gcs[j], 8)[r]
  {
    hide ToLe;
    if j == 0 {
    } else {
      EncodedByte(gcs[1..], j - 1, r);
      assert EncodeCounters(gcs)[8 * j + r] == EncodeCounters(gcs[1..])[8 * (j - 1) + r];
    }
  }

  lemma OneBitOnTheLink(n: nat, k: nat, i: nat)
    requires i < 8 * n && i != 8 * k + 6
    ensures EncodeCounters(OneBit(n, k))[i] == 0
  {
    hide ToLe, EncodeCounters, OneBit;
    var j, r := i / 8, i % 8;
    EncodedByte(OneBit(n, k), j, r);
    ZeroOfOneBit(n, k, j, r);
  }

  lemma ZeroOfOneBit(n: nat, k: nat, j: nat, r: nat)
    requires j < n && r < 8 && !(j == k && r == 6)
    ensures ToLe(OneBit(n, k)[j], 8)[r] == 0
  {
    BytesOfOneBit();
    hide ToLe;
  }

  lemma BytesOfOneBit()
    ensures ToLe(0x1_0000_0000_0000, 8) == [0, 0, 0, 0, 0, 0, 1, 0]
    ensures ToLe(0, 8) == [0, 0, 0, 0, 0, 0, 0, 0]
  {
    assert ToLe(1, 2) == [1, 0];
    assert ToLe(0x100_0000, 5) == [0, 0, 0] + ToLe(1, 2);
    assert ToLe(0, 4) == [0, 0, 0, 0];
  }

  /** A word whose byte 6 is 0 is below 2^48, once an FPGA has it. */
  lemma ClearByteSix(bs: seq<byte>)
    requires |bs| == 8 && bs[6] == 0
    ensures FromLe(bs) % TWO_TO_THE_49 < 0x1_0000_0000_0000
  {
    var high: nat := bs[7];
    var a, b := FirstThree(bs, 0), FirstThree(bs, 3);
    assert bs[0..] == bs;
    assert FromLe(bs[6..]) == 256 * high by {
      FromLeFrom(bs, 6);
      FromLeFrom(bs, 7);
      assert FromLe(bs[8..]) == 0;
    }
    FromLeThree(bs, 0);
    FromLeThree(bs, 3);
    hide FromLe, FirstThree;
    RemainderIsUnique(FromLe(bs), TWO_TO_THE_49, 128 * high, a + 0x100_0000 * b);
  }

  function FirstThree(bs: seq<byte>, i: nat): (n: nat)
    requires i + 3 <= |bs|
    ensures n < 0x100_0000
  {
    var x: int, y: int, z: int := bs[i], bs[i + 1], bs[i + 2];
    x + 256 * (y + 256 * z)
  }

  lemma FromLeThree(bs: seq<byte>, i: nat)
    requires i + 3 <= |bs|
    ensures FromLe(bs[i..]) == FirstThree(bs, i) + 0x100_0000 * FromLe(bs[i + 3..])
  {
    FromLeFrom(bs, i);
    FromLeFrom(bs, i + 1);
    FromLeFrom(bs, i + 2);
  }

  lemma FromLeFrom(bs: seq<byte>, i: nat)
    requires i < |bs|
    ensures FromLe(bs[i..]) == bs[i] + 256 * FromLe(bs[i + 1..])
  {
    assert bs[i..][1..] == bs[i + 1..];
  }

  /** Read past its place, the odd counter is missed. */
  lemma DisplacedMissesIt(n: nat, k: nat, w: u64)
    requires Displaced(EncodeCounters(OneBit(n, k)), w, k)
    ensures k < n && w != OneBit(n, k)[k]
  {
    hide EncodeCounters, FromLe, Word;
    var sent := EncodeCounters(OneBit(n, k));
    var off :| 8 * k < off && DecodedAt(sent, off, w);
    var bs := sent[off..off + 8];
    OneBitOnTheLink(n, k, off + 6);
    assert bs[6] == sent[off + 6];
    ClearByteSix(bs);
  }

  // ---- the theorem ----

  /** No counter was decoded after Alice's first short top-up, or there was none. */
  predicate NothingAfterShort(a: AliceState) {
    a.shortAt.None? || |AtAlice(a)| == a.shortAt.value
  }

  /** The same of the counters that are on her FPGA. */
  predicate NothingWrittenAfterShort(a: AliceState) {
    a.shortAt.None? || |FpgaCounters(a.fpga)| <= a.shortAt.value
  }

  /** On every input of this length the schedule leaves Alice with counters in Bob's order. */
  ghost predicate KeepsOrder(steps: seq<Step>, length: nat) {
    forall input | |input| == length && Run(Apply, Init(input), steps).Some? ::
      var s := Run(Apply, Init(input), steps).value;
      AtAlice(s.alice) <= Taken(s.bob)
  }

  ghost predicate KeepsFpgaOrder(steps: seq<Step>, length: nat) {
    forall input | |input| == length && Run(Apply, Init(input), steps).Some? ::
      var s := Run(Apply, Init(input), steps).value;
      FpgaCounters(s.alice.fpga) <= Taken(s.bob)
  }

  lemma ReachedInv(input: seq<byte>, steps: seq<Step>)
    requires Run(Apply, Init(input), steps).Some?
    ensures ShortInv(Run(Apply, Init(input), steps).value, input)
  {
    hide Apply, ShortInv;
    forall s, step | ShortInv(s, input) && Apply(s, step).Some? ensures ShortInv(Apply(s, step).value, input) {
      StepKeepsShort(s, step, input);
    }
    ShortInvInit(input);
    RunKeeps(Apply, s => ShortInv(s, input), Init(input), steps);
  }

  lemma HarmlessKeepsOrder(s: State, input: seq<byte>)
    requires ShortInv(s, input)
    ensures NothingAfterShort(s.alice) ==> AtAlice(s.alice) <= Taken(s.bob)
    ensures NothingWrittenAfterShort(s.alice) ==> FpgaCounters(s.alice.fpga) <= Taken(s.bob)
  {
    hide BobInv, WireInv, Displaced, Taken, FpgaCounters, Pending;
    var at := AtAlice(s.alice);
    assert at == FpgaCounters(s.alice.fpga) + Pending(s.alice);
    if s.alice.shortAt.Some? {
      var k := s.alice.shortAt.value;
      assert |at| == k ==> at[..k] == at;
    }
  }

  /** The same schedule on the input whose k-th counter is the odd one. */
  lemma OddInput(input: seq<byte>, steps: seq<Step>, k: nat) returns (other: seq<byte>, t: State)
    requires Run(Apply, Init(input), steps).Some?
    ensures |other| == |input| && Run(Apply, Init(other), steps) == Some(t)
    ensures SameShape(Run(Apply, Init(input), steps).value, t)
    ensures Taken(t.bob) == OneBit(|Taken(Run(Apply, Init(input), steps).value.bob)|, k)
  {
    hide Apply, Clicks, ClicksOfChunks;
    var s, lens := Run(Apply, Init(input), steps).value, Lens(steps);
    TakenOfRun(Init(input), steps);
    ChunksOfLength(input, lens);
    var gcs := OneBit(|Taken(s.bob)|, k);
    other := Realise(lens, |input|, gcs);
    RunShape(Init(input), Init(other), steps);
    t := Run(Apply, Init(other), steps).value;
    TakenOfRun(Init(other), steps);
    assert t.bob.taken == ClicksOfChunks(other, lens);
  }

  lemma ShortCanMisplace(input: seq<byte>, steps: seq<Step>)
    requires Run(Apply, Init(input), steps).Some?
    ensures var a := Run(Apply, Init(input), steps).value.alice;
            && (!NothingAfterShort(a) ==> !KeepsOrder(steps, |input|))
            && (!NothingWrittenAfterShort(a) ==> !KeepsFpgaOrder(steps, |input|))
  {
    hide Apply, Run, BobInv, AliceInv, WireInv, OneBit, Displaced, FpgaCounters, Pending;
    var s := Run(Apply, Init(input), steps).value;
    ReachedInv(input, steps);
    if !NothingAfterShort(s.alice) || !NothingWrittenAfterShort(s.alice) {
      var k := s.alice.shortAt.value;
      var other, t := OddInput(input, steps, k);
      ReachedInv(other, steps);
      SameLengths(s, t);
      OddCounterIsMissed(t, k, |Taken(s.bob)|);
    }
  }

  lemma SameLengths(s: State, t: State)
    requires SameShape(s, t)
    ensures |AtAlice(s.alice)| == |AtAlice(t.alice)| && |FpgaCounters(s.alice.fpga)| == |FpgaCounters(t.alice.fpga)|
  {
    hide Clicks;
    if s.alice.pc.Writing? {
      SameFlatLength(s.alice.pc.batches, t.alice.pc.batches);
    }
  }

  lemma {:induction false} SameFlatLength(x: seq<seq<u64>>, y: seq<seq<u64>>)
    requires |x| == |y| && forall i :: 0 <= i < |x| ==> |x[i]| == |y[i]|
    ensures |Flatten(x)| == |Flatten(y)|
  {
    if x == [] {
    } else {
      SameFlatLength(x[1..], y[1..]);
    }
  }

  lemma OddCounterIsMissed(t: State, k: nat, n: nat)
    requires ShiftInv(t, k) && Taken(t.bob) == OneBit(n, k)
    ensures |AtAlice(t.alice)| > k ==> !(AtAlice(t.alice) <= Taken(t.bob))
    ensures |FpgaCounters(t.alice.fpga)| > k ==> !(FpgaCounters(t.alice.fpga) <= Taken(t.bob))
  {
    hide FpgaCounters, Pending, OneBit, Displaced;
    var at, fpga := AtAlice(t.alice), FpgaCounters(t.alice.fpga);
    if |at| > k {
      DisplacedMissesIt(n, k, at[k]);
      assert |fpga| > k ==> fpga[k] == at[k];
    }
  }

  /** Exactly when short top-up reads are harmless. A schedule keeps Alice's counters in Bob's order on
      every input of a length if and only if no top-up of hers stops short with the stream going on, or
      no counter is decoded after the first that does; her FPGA's, if and only if none is written. */
  lemma ShortTopUpsExactly(input: seq<byte>, steps: seq<Step>)
    requires Run(Apply, Init(input), steps).Some?
    ensures KeepsOrder(steps, |input|) <==> NothingAfterShort(Run(Apply, Init(input), steps).value.alice)
    ensures KeepsFpgaOrder(steps, |input|) <==> NothingWrittenAfterShort(Run(Apply, Init(input), steps).value.alice)
  {
    hide Apply, Run, ShortInv, AtAlice, FpgaCounters, Taken;
    var s := Run(Apply, Init(input), steps).value;
    ShortCanMisplace(input, steps);
    forall other | |other| == |input| && Run(Apply, Init(other), steps).Some?
      ensures NothingAfterShort(s.alice) ==>
        var t := Run(Apply, Init(other), steps).value; AtAlice(t.alice) <= Taken(t.bob)
      ensures NothingWrittenAfterShort(s.alice) ==>
        var t := Run(Apply, Init(other), steps).value; FpgaCounters(t.alice.fpga) <= Taken(t.bob)
    {
      var t := Run(Apply, Init(other), steps).value;
      InitShape(input, other);
      RunShape(Init(input), Init(other), steps);
      SameLengths(s, t);
      ReachedInv(other, steps);
      HarmlessKeepsOrder(t, other);
    }
  }

  lemma InitShape(input: seq<byte>, other: seq<byte>)
    requires |input| == |other|
    ensures SameShape(Init(input), Init(other))
  {
  }

  // ---- the same for Bob's own top-up reads ----

  /** The click that a record beginning at off carries. */
  function ClickAt(bs: seq<byte>, off: nat): Click
    requires off + 8 <= |bs|
  {
    var gcr := SplitGcr(bs[off..off + 8]);
    Click(gcr.0, gcr.1)
  }

  ghost predicate TakenPast(bs: seq<byte>, c: Click, k: nat) {
    exists off :: 16 * k < off && off + 8 <= |bs| && c == ClickAt(bs, off)
  }

  /** The first k clicks are those of the fifo and the next, if any, was read past its place. */
  ghost predicate BobShiftInv(b: BobState, k: nat) {
    && k <= |b.taken| && |b.consumed| > 16 * k && b.taken[..k] <= Clicks(b.consumed)
    && (|b.taken| > k ==> TakenPast(b.consumed, b.taken[k], k))
  }

  ghost predicate BobShortInv(b: BobState) {
    if b.shortAt.None? then b.taken == Clicks(b.consumed) && |b.consumed| == 16 * |b.taken|
    else BobShiftInv(b, b.shortAt.value)
  }

  lemma TakenPastGrows(bs: seq<byte>, more: seq<byte>, c: Click, k: nat)
    requires TakenPast(bs, c, k)
    ensures TakenPast(bs + more, c, k)
  {
    var off :| 16 * k < off && off + 8 <= |bs| && c == ClickAt(bs, off);
    assert (bs + more)[off..off + 8] == bs[off..off + 8];
    assert c == ClickAt(bs + more, off);
  }

  /** Whole records first: what follows only adds clicks. */
  lemma {:induction false} ClicksGrow(bs: seq<byte>, more: seq<byte>)
    ensures Clicks(bs) <= Clicks(bs + more)
  {
    if |bs| < 16 {
    } else {
      assert (bs + more)[..8] == bs[..8] && (bs + more)[16..] == bs[16..] + more;
      ClicksGrow(bs[16..], more);
    }
  }

  lemma FirstOfChunk(bs: seq<byte>, chunk: seq<byte>, k: nat)
    requires |chunk| >= 16 && |bs| > 16 * k
    ensures TakenPast(bs + chunk, Clicks(chunk)[0], k)
  {
    hide SplitGcr, ClickAt;
    FirstClick(chunk);
    ClickAtOffset(bs, chunk);
  }

  lemma FirstClick(chunk: seq<byte>)
    requires |chunk| >= 16
    ensures |Clicks(chunk)| > 0 && Clicks(chunk)[0] == ClickAt(chunk, 0)
  {
    hide SplitGcr;
  }

  lemma ClickAtOffset(bs: seq<byte>, chunk: seq<byte>)
    requires |chunk| >= 8
    ensures ClickAt(bs + chunk, |bs|) == ClickAt(chunk, 0)
  {
    hide SplitGcr;
    assert (bs + chunk)[|bs|..|bs| + 8] == chunk[0..8];
  }

  lemma ChunkKeepsShift(b: BobState, chunk: seq<byte>, k: nat)
    requires BobShiftInv(b, k)
    ensures var taken, consumed := b.taken + Clicks(chunk), b.consumed + chunk;
            && k <= |taken| && |consumed| > 16 * k && taken[..k] <= Clicks(consumed)
            && (|taken| > k ==> TakenPast(consumed, taken[k], k))
  {
    hide Clicks, TakenPast;
    ClicksGrow(b.consumed, chunk);
    assert (b.taken + Clicks(chunk))[..k] == b.taken[..k];
    if |b.taken| > k {
      TakenPastGrows(b.consumed, chunk, b.taken[k], k);
    } else if |Clicks(chunk)| > 0 {
      FirstOfChunk(b.consumed, chunk, k);
    }
  }

  lemma BobReadKeepsShort(b: BobState, len: nat, timeMs: nat)
    requires BobShortInv(b) && CanBobRead(b, len)
    ensures BobShortInv(AfterBobRead(b, len, timeMs))
  {
    hide Clicks, EncodeCounters, NextReadLength, TakenPast;
    var chunk, c := b.device[..len], AfterBobRead(b, len, timeMs);
    if b.shortAt.Some? {
      ChunkKeepsShift(b, chunk, b.shortAt.value);
    } else {
      ClicksConcat(b.consumed, chunk);
      assert c.taken[..|c.taken|] == c.taken;
    }
  }

  lemma BobStepKeepsBobShort(s: State, step: Step)
    requires BobShortInv(s.bob) && Apply(s, step).Some?
    ensures BobShortInv(Apply(s, step).value.bob)
  {
    hide Clicks, TakenPast, EncodeForFpga, Counters, SubBatches;
    if step.BobRead? {
      BobReadKeepsShort(s.bob, step.len, step.timeMs);
    }
  }

  /** No click was made after Bob's first short top-up, or there was none. */
  predicate NoClickAfterShort(b: BobState) {
    b.shortAt.None? || |b.taken| == b.shortAt.value
  }

  /** On every input of this length the schedule gives Bob the clicks of his fifo. */
  ghost predicate ReadsTheFifo(steps: seq<Step>, length: nat) {
    forall input | |input| == length && Run(Apply, Init(input), steps).Some? ::
      Run(Apply, Init(input), steps).value.bob.taken <= Clicks(input)
  }

  /** A click fifo that is zero but for the top bit of byte 5 of record k. */
  function OddFifo(length: nat, k: nat): (bs: seq<byte>)
    ensures |bs| == length
  {
    seq(length, i => if i == 16 * k + 5 then 128 else 0)
  }

  lemma ByteFiveIsClear(buf: seq<byte>)
    requires |buf| == 8 && buf[5] == 0
    ensures SplitGcr(buf).0 < 0x1_0000_0000_0000
  {
    ClearedHighBytes(buf);
    var low := buf[..6];
    FromLeThree(low, 0);
    FromLeThree(low, 3);
    assert low[0..] == low && low[6..] == [];
    hide FromLe;
    assert FirstThree(low, 3) < 0x1_0000;
  }

  lemma OddClick(length: nat, k: nat)
    requires 16 * k + 16 <= length
    ensures Clicks(OddFifo(length, k))[k].gc == 0x1_0000_0000_0000
  {
    var bs := OddFifo(length, k);
    ClicksAt(bs, k);
    var buf := bs[16 * k..16 * k + 8];
    ClearedHighBytes(buf);
    var low := buf[..6];
    assert buf[6] == 0 && low == [0, 0, 0, 0, 0, 128];
    FromLeThree(low, 0);
    FromLeThree(low, 3);
    assert low[0..] == low && low[6..] == [] && FromLe([]) == 0;
    hide FromLe;
  }

  lemma TakenPastMissesIt(length: nat, k: nat, n: nat, c: Click)
    requires n <= length && TakenPast(OddFifo(length, k)[..n], c, k)
    ensures c.gc < 0x1_0000_0000_0000
  {
    hide SplitGcr;
    var bs := OddFifo(length, k)[..n];
    var off :| 16 * k < off && off + 8 <= |bs| && c == ClickAt(bs, off);
    ByteFiveIsClear(bs[off..off + 8]);
  }

  lemma NoClickKeepsFifo(s: State, input: seq<byte>)
    requires Inv(s, input) && BobShortInv(s.bob) && NoClickAfterShort(s.bob)
    ensures s.bob.taken <= Clicks(input)
  {
    hide Clicks, TakenPast, AliceInv;
    ClicksGrow(s.bob.consumed, s.bob.device);
    assert s.bob.taken[..|s.bob.taken|] == s.bob.taken;
  }

  lemma BobCanMisread(input: seq<byte>, steps: seq<Step>)
    requires Run(Apply, Init(input), steps).Some? && !NoClickAfterShort(Run(Apply, Init(input), steps).value.bob)
    ensures !ReadsTheFifo(steps, |input|)
  {
    hide Apply, Run, Clicks, BobInv, AliceInv, TakenPast;
    var s := Run(Apply, Init(input), steps).value;
    var k := s.bob.shortAt.value;
    var other := OddFifo(|input|, k);
    InitShape(input, other);
    RunShape(Init(input), Init(other), steps);
    var t := Run(Apply, Init(other), steps).value;
    BobReached(input, steps);
    BobReached(other, steps);
    if t.bob.taken <= Clicks(other) {
      FifoHoldsRecord(t, other, k);
      OddClick(|other|, k);
      assert t.bob.taken[k] == Clicks(other)[k];
      assert t.bob.consumed == other[..|t.bob.consumed|];
      TakenPastMissesIt(|other|, k, |t.bob.consumed|, t.bob.taken[k]);
    }
  }

  lemma FifoHoldsRecord(t: State, input: seq<byte>, k: nat)
    requires t.bob.taken <= Clicks(input) && |t.bob.taken| > k
    ensures 16 * k + 16 <= |input|
  {
  }

  lemma BobShortInvInit(input: seq<byte>)
    ensures BobShortInv(Init(input).bob)
  {
  }

  lemma BobReached(input: seq<byte>, steps: seq<Step>)
    requires Run(Apply, Init(input), steps).Some?
    ensures BobShortInv(Run(Apply, Init(input), steps).value.bob) && Inv(Run(Apply, Init(input), steps).value, input)
  {
    hide Apply, Inv, BobShortInv;
    RunKeepsInv(input, steps);
    forall s: State, step | BobShortInv(s.bob) && Apply(s, step).Some? ensures BobShortInv(Apply(s, step).value.bob) {
      BobStepKeepsBobShort(s, step);
    }
    BobShortInvInit(input);
    RunKeeps(Apply, (s: State) => BobShortInv(s.bob), Init(input), steps);
  }

  /** Exactly when Bob's short top-up reads are harmless. A schedule gives him the clicks of his fifo on
      every input of a length if and only if no top-up of his stops short, or no click is made after the
      first that does. */
  lemma BobShortReadsExactly(input: seq<byte>, steps: seq<Step>)
    requires Run(Apply, Init(input), steps).Some?
    ensures ReadsTheFifo(steps, |input|) <==> NoClickAfterShort(Run(Apply, Init(input), steps).value.bob)
  {
    hide Apply, Run, Clicks, Inv, BobShortInv;
    var s := Run(Apply, Init(input), steps).value;
    if !NoClickAfterShort(s.bob) {
      BobCanMisread(input, steps);
    } else {
      forall other | |other| == |input| && Run(Apply, Init(other), steps).Some?
        ensures Run(Apply, Init(other), steps).value.bob.taken <= Clicks(other)
      {
        InitShape(input, other);
        RunShape(Init(input), Init(other), steps);
        BobReached(other, steps);
        NoClickKeepsFifo(Run(Apply, Init(other), steps).value, other);
      }
    }
  }
}
