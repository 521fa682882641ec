/** That the counter pipeline delivers: whatever has happened so far, as long as nobody has left and no
    byte was discarded, all clicks of the fifo can still reach both FPGAs and the result fifo. */
module GcDelivery {
  import opened Bytes
  import opened GcRecords
  import opened GcBatches
  import opened GcLinks
  import opened GcPipeline
  import opened Maybe
  import opened Runs

  /** Both loops run, nothing was discarded, and Bob's top-ups have been complete. */
  ghost predicate Running(s: State, input: seq<byte>) {
    && Inv(s, input) && s.bob.open && s.bob.shortAt.None? && s.alice.intact && !s.alice.pc.Gone?
  }

  lemma Step1(start: State, s: State, step: Step, input: seq<byte>) returns (t: State)
    requires Runs.Reachable(Apply, start, s) && Inv(s, input) && Apply(s, step).Some?
    ensures Runs.Reachable(Apply, start, t) && Inv(t, input) && Apply(s, step) == Some(t)
  {
    hide Inv, Apply;
    StepKeepsInv(s, step, input);
    t := Go(Apply, start, s, step);
  }

  // ---- Bob ----

  function BobsNext(b: BobState): Step {
    match b.pc
    case Sending => BobSend(|b.unsent|)
    case Filing => BobFile
    case _ => BobRecord
  }

  function RoundLeft(b: BobState): nat {
    match b.pc
    case Reading => 0
    case Recording => 1
    case Filing => 2
    case Sending => 3
  }

  lemma BobMovesOn(s: State)
    requires s.bob.open && !s.bob.pc.Reading? && (s.bob.pc.Sending? ==> s.bob.unsent != [])
    ensures Apply(s, BobsNext(s.bob)).Some?
    ensures var t := Apply(s, BobsNext(s.bob)).value;
            && RoundLeft(t.bob) < RoundLeft(s.bob) && t.alice == s.alice && t.bob.open
            && t.bob.shortAt == s.bob.shortAt && t.bob.device == s.bob.device && t.bob.taken == s.bob.taken
  {
    hide EncodeForFpga, Gcs, Results;
  }

  /** Bob ends his round. */
  lemma {:induction false} BobEndsRound(start: State, s: State, input: seq<byte>) returns (t: State)
    requires Runs.Reachable(Apply, start, s) && Running(s, input)
    ensures Runs.Reachable(Apply, start, t) && Running(t, input) && t.bob.pc.Reading?
    ensures t.bob.device == s.bob.device && t.bob.taken == s.bob.taken
    decreases RoundLeft(s.bob)
  {
    if s.bob.pc.Reading? {
      t := s;
    } else {
      SendingHasBytes(s, input);
      BobMovesOn(s);
      hide Inv, Apply, BobsNext;
      t := Step1(start, s, BobsNext(s.bob), input);
      t := BobEndsRound(start, t, input);
    }
  }

  lemma SendingHasBytes(s: State, input: seq<byte>)
    requires Inv(s, input)
    ensures s.bob.pc.Sending? <==> s.bob.unsent != []
    ensures 1 <= s.bob.readLength <= BATCHSIZE
  {
    hide AliceInv, BobLogs;
  }

  /** Bob takes all that is left in his fifo, round by round. */
  lemma {:induction false} BobTakesAll(start: State, s: State, input: seq<byte>) returns (t: State)
    requires Runs.Reachable(Apply, start, s) && Running(s, input) && s.bob.pc.Reading? && |input| % 16 == 0
    ensures Runs.Reachable(Apply, start, t) && Running(t, input) && t.bob.pc.Reading? && t.bob.device == []
    decreases |s.bob.device|
  {
    if s.bob.device == [] {
      t := s;
    } else {
      SendingHasBytes(s, input);
      var len := NextLength(s, input);
      BobCanRead(s, len);
      hide Inv, Apply;
      t := Step1(start, s, BobRead(len, 0), input);
      t := BobEndsRound(start, t, input);
      t := BobTakesAll(start, t, input);
    }
  }

  lemma NextLength(s: State, input: seq<byte>) returns (len: nat)
    requires Running(s, input) && |input| % 16 == 0 && s.bob.device != []
    ensures 1 <= len <= s.bob.readLength * 16 && len <= |s.bob.device| && len % 16 == 0
  {
    hide AliceInv, BobLogs;
    assert |s.bob.device| == |input| - |s.bob.consumed|;
    len := if s.bob.readLength * 16 < |s.bob.device| then s.bob.readLength * 16 else |s.bob.device|;
  }

  lemma BobCanRead(s: State, len: nat)
    requires s.bob.open && s.bob.pc.Reading? && s.bob.shortAt.None? && len % 16 == 0
    requires 1 <= len <= s.bob.readLength * 16 && len <= |s.bob.device|
    ensures Apply(s, BobRead(len, 0)).Some?
    ensures var t := Apply(s, BobRead(len, 0)).value;
            t.alice == s.alice && t.bob.open && t.bob.shortAt.None? && |t.bob.device| < |s.bob.device|
  {
    hide Clicks, EncodeCounters;
  }

  // ---- Alice ----

  /** Her next step once Bob has closed: she writes, completes, or reads as much as one read may give. */
  function AlicesNext(s: State): Step {
    match s.alice.pc
    case Writing(batches) => if batches == [] then AliceNext else AliceWrite
    case ToppingUp(partial) => AliceTopUp(Missing(partial))
    case _ =>
      if s.wire == [] then AliceEof
      else AliceRead(if |s.wire| < TCP_RCV_BATCHSIZE * 8 then |s.wire| else TCP_RCV_BATCHSIZE * 8)
  }

  function WorkLeft(pc: AlicePc): nat {
    match pc
    case Writing(batches) => 2 + |batches|
    case Gone => 0
    case _ => 1
  }

  lemma AliceMovesOn(s: State)
    requires s.alice.intact && !s.alice.pc.Gone? && !s.bob.open && s.bob.unsent == []
    requires |InFlight(s)| % 8 == 0 && (s.alice.pc.ToppingUp? ==> |s.alice.pc.partial| % 8 != 0)
    ensures Apply(s, AlicesNext(s)).Some?
    ensures var t := Apply(s, AlicesNext(s)).value;
            && t.bob == s.bob && t.alice.intact
            && (|t.wire| < |s.wire| || (t.wire == s.wire && WorkLeft(t.alice.pc) < WorkLeft(s.alice.pc)))
  {
    hide EncodeForFpga, SubBatches, Counters;
  }

  /** Alice takes and writes all that is on the link and leaves at its end. */
  lemma {:induction false} AliceFinishes(start: State, s: State, input: seq<byte>) returns (t: State)
    requires Runs.Reachable(Apply, start, s) && Inv(s, input)
    requires s.alice.intact && !s.bob.open && s.bob.unsent == []
    ensures Runs.Reachable(Apply, start, t) && Inv(t, input)
    ensures t.bob == s.bob && t.alice.intact && t.alice.pc.Gone?
    decreases |s.wire|, WorkLeft(s.alice.pc)
  {
    if s.alice.pc.Gone? {
      t := s;
    } else {
      LinkIsWhole(Taken(s.bob), AtAlice(s.alice), InFlight(s));
      AliceMovesOn(s);
      hide Inv, Apply, AlicesNext;
      t := Step1(start, s, AlicesNext(s), input);
      t := AliceFinishes(start, t, input);
    }
  }

  // ---- nothing is assumed about sizes ----

  /** Reads, writes and top-ups may be of any size that the buffers and the bytes there allow; a top-up
      gives nothing only at the end of the stream. */
  lemma AnySizeIsPossible(s: State)
    ensures s.bob.open && s.bob.pc.Reading? ==> forall len, timeMs ::
      1 <= len <= 16 * s.bob.readLength && len <= |s.bob.device| ==> Apply(s, BobRead(len, timeMs)).Some?
    ensures s.bob.open && s.bob.pc.Sending? ==> forall k ::
      1 <= k <= |s.bob.unsent| ==> Apply(s, BobSend(k)).Some?
    ensures s.alice.pc.Idle? ==> forall n :: 1 <= n <= |s.wire| && n <= 8192 ==> Apply(s, AliceRead(n)).Some?
    ensures s.alice.pc.ToppingUp? ==> forall m ::
      m <= Missing(s.alice.pc.partial) && (1 <= m <= |s.wire| || (m == 0 && s.wire == [] && !s.bob.open))
      ==> Apply(s, AliceTopUp(m)).Some?
    ensures s.bob.open ==> Apply(s, BobClose).Some?
    ensures AtLoopTop(s.alice) ==> Apply(s, AliceStop).Some?
  {
    hide AfterBobRead, AfterBobSend, AfterAliceRead, AfterTopUp, AfterShortTopUp, AfterAliceStop;
  }

  // ---- main result ----

  /** From every reachable state in which both loops run, Bob's top-ups were complete and Alice has
      discarded nothing, some run ends with every click of the fifo on both FPGAs and in the result
      fifo, in order, and nothing else. */
  lemma DeliveryCanComplete(s: State, input: seq<byte>)
    requires GcPipeline.Reachable(s, input) && |input| % 16 == 0
    requires s.bob.open && s.bob.shortAt.None? && s.alice.intact && !s.alice.pc.Gone?
    ensures exists t ::
      && Runs.Reachable(Apply, s, t) && t.bob.results == Results(Clicks(input))
      && FpgaCounters(t.alice.fpga) == FpgaCounters(t.bob.fpga) == Gcs(Clicks(input))
  {
    hide Inv, Apply, FpgaCounters, Clicks, Gcs, Results;
    ReachableInv(s, input);
    assert Run(Apply, s, []) == Some(s);
    var t := BobEndsRound(s, s, input);
    t := BobTakesAll(s, t, input);
    t := BobCloses(s, t, input);
    t := AliceFinishes(s, t, input);
    AllIsDelivered(t, input);
  }

  lemma BobCloses(start: State, s: State, input: seq<byte>) returns (t: State)
    requires Runs.Reachable(Apply, start, s) && Running(s, input) && s.bob.pc.Reading?
    ensures Runs.Reachable(Apply, start, t) && Inv(t, input)
    ensures t.alice == s.alice && t.bob == s.bob.(open := false) && t.bob.unsent == []
  {
    hide Inv, AliceInv, BobInv;
    SendingHasBytes(s, input);
    t := Step1(start, s, BobClose, input);
  }

  lemma AllIsDelivered(t: State, input: seq<byte>)
    requires Inv(t, input) && t.bob.shortAt.None? && t.bob.device == [] && t.bob.pc.Reading?
    requires t.alice.intact && t.alice.pc.Gone?
    ensures t.bob.results == Results(Clicks(input))
    ensures FpgaCounters(t.alice.fpga) == FpgaCounters(t.bob.fpga) == Gcs(Clicks(input))
  {
    hide EncodeCounters, Clicks, EncodeForFpga, SubBatches, Counters;
    LinkIsWhole(Taken(t.bob), AtAlice(t.alice), InFlight(t));
    NoCounters(InFlight(t));
    assert t.bob.consumed == input;
    var clicks := t.bob.taken;
    assert clicks[..|clicks|] == clicks;
  }
}
