/** The loops of gc/src/bin/bob.rs (`send_gc`) and gc/src/bin/alice.rs (`recv_gc`), each run on its own. */
module GcLoops {
  import opened Bytes
  import opened GcRecords
  import opened GcBatches
  import opened GcLinks

  /** Bob's batch-size controller: keeps the read time between TIME_TARGET and 4 * TIME_TARGET. */
  function NextReadLength(readLength: nat, timeMs: nat): nat {
    if timeMs < TIME_TARGET && readLength <= BATCHSIZE / 2 then readLength * 2
    else if timeMs > TIME_TARGET * 4 && timeMs < TIME_TARGET * 8 && readLength > 1 then readLength / 2
    else if timeMs >= TIME_TARGET * 8 then 1
    else readLength
  }

  /** The batch sizes the controller may ask for: powers of two from 1 to BATCHSIZE. */
  ghost predicate IsReadLength(n: nat) {
    1 <= n <= BATCHSIZE && exists e: nat :: e <= LOG_BATCHSIZE && n == Pow2(e)
  }

  lemma ReadLengthStep(n: nat, timeMs: nat)
    requires IsReadLength(n)
    ensures IsReadLength(NextReadLength(n, timeMs)) && 1 <= NextReadLength(n, timeMs) <= BATCHSIZE
  {
    BatchSizeIsPower();
    var e: nat :| e <= LOG_BATCHSIZE && n == Pow2(e);
    assert n <= BATCHSIZE / 2 ==> e < LOG_BATCHSIZE && 2 * n == Pow2(e + 1);
    assert e > 0 ==> n / 2 == Pow2(e - 1);
    assert 1 == Pow2(0);
  }

  lemma BatchSizeIsPower()
    ensures Pow2(LOG_BATCHSIZE) == BATCHSIZE
  {
    assert Pow2(4) == 16;
  }

  /** The read length after a run of measured read times. */
  function ReadLengthAfter(start: nat, times: seq<nat>): nat
    decreases |times|
  {
    if times == [] then start else ReadLengthAfter(NextReadLength(start, times[0]), times[1..])
  }

  /** For every run of measured read times the read length stays a power of two in 1..256. */
  lemma {:induction false} ReadLengthInRange(start: nat, times: seq<nat>)
    requires IsReadLength(start)
    ensures IsReadLength(ReadLengthAfter(start, times))
    decreases |times|
  {
    if times == [] {
    } else {
      ReadLengthStep(start, times[0]);
      ReadLengthInRange(NextReadLength(start, times[0]), times[1..]);
    }
  }

  /** From a single record, k fast reads give a batch of 2^k records until the full batch is reached. */
  lemma {:induction false} FastReadsFillTheBatch(k: nat, times: seq<nat>)
    requires |times| == k && forall i :: 0 <= i < k ==> times[i] < TIME_TARGET
    ensures ReadLengthAfter(1, times) == if k <= LOG_BATCHSIZE then Pow2(k) else BATCHSIZE
  {
    BatchSizeIsPower();
    if k == 0 {
    } else {
      FastReadsFillTheBatch(k - 1, times[..k - 1]);
      ReadLengthSnoc(1, times[..k - 1], times[k - 1]);
      assert times[..k - 1] + [times[k - 1]] == times;
      if k <= LOG_BATCHSIZE {
        Pow2Grows(k, LOG_BATCHSIZE);
      }
    }
  }

  /** One read, in milliseconds: below 20 the batch doubles up to 256, from 20 to 80 it stays, above 80
      and below 160 it halves down to 1, and from 160 it starts again at 1. */
  lemma ReadTimeDecides(e: nat, timeMs: nat)
    requires e <= 8
    ensures timeMs < 20 ==> NextReadLength(Pow2(e), timeMs) == Pow2(if e < 8 then e + 1 else 8)
    ensures 20 <= timeMs <= 80 ==> NextReadLength(Pow2(e), timeMs) == Pow2(e)
    ensures 80 < timeMs < 160 ==> NextReadLength(Pow2(e), timeMs) == Pow2(if e > 0 then e - 1 else 0)
    ensures 160 <= timeMs ==> NextReadLength(Pow2(e), timeMs) == 1
  {
    BatchSizeIsPower();
    if e < 8 {
      Pow2Grows(e + 1, 8);
    }
    assert e > 0 ==> Pow2(e) == 2 * Pow2(e - 1);
  }

  /** Slow reads shrink the batch to a single record, steady ones leave it alone. */
  lemma {:induction false} SlowReadsShrinkTheBatch(e: nat, times: seq<nat>)
    requires e <= 8
    ensures (forall i :: 0 <= i < |times| ==> 80 < times[i] < 160) ==>
      ReadLengthAfter(Pow2(e), times) == Pow2(if |times| <= e then e - |times| else 0)
    ensures (forall i :: 0 <= i < |times| ==> 20 <= times[i] <= 80) ==> ReadLengthAfter(Pow2(e), times) == Pow2(e)
    decreases |times|
  {
    hide Pow2, NextReadLength;
    if times == [] {
    } else {
      ReadTimeDecides(e, times[0]);
      if 80 < times[0] < 160 {
        SlowReadsShrinkTheBatch(if e > 0 then e - 1 else 0, times[1..]);
      } else {
        SlowReadsShrinkTheBatch(e, times[1..]);
      }
    }
  }

  lemma {:induction false} ReadLengthSnoc(start: nat, times: seq<nat>, last: nat)
    ensures ReadLengthAfter(start, times + [last]) == NextReadLength(ReadLengthAfter(start, times), last)
    decreases |times|
  {
    if times == [] {
      assert [last][1..] == [];
    } else {
      assert (times + [last])[1..] == times[1..] + [last];
      ReadLengthSnoc(NextReadLength(start, times[0]), times[1..], last);
    }
  }

  // ---- what a stretch of the input puts on each output ----

  function ToAlice(clicks: seq<byte>): seq<byte> {
    EncodeCounters(Gcs(Clicks(clicks)))
  }

  function ToFpga(clicks: seq<byte>): seq<byte> {
    EncodeForFpga(Gcs(Clicks(clicks)))
  }

  function ToResults(clicks: seq<byte>): seq<byte> {
    Results(Clicks(clicks))
  }

  /** What Alice writes to her FPGA for a stretch of the bytes received from Bob. */
  function Relayed(received: seq<byte>): seq<byte> {
    EncodeForFpga(Counters(received))
  }

  lemma OutputsConcat(a: seq<byte>, b: seq<byte>)
    requires |a| % 16 == 0
    ensures ToAlice(a + b) == ToAlice(a) + ToAlice(b)
    ensures ToFpga(a + b) == ToFpga(a) + ToFpga(b)
    ensures ToResults(a + b) == ToResults(a) + ToResults(b)
  {
    var x, y := Clicks(a), Clicks(b);
    assert Clicks(a + b) == x + y by { ClicksConcat(a, b); }
    GcsConcat(x, y);
    EncodeCountersConcat(Gcs(x), Gcs(y));
    EncodeForFpgaConcat(Gcs(x), Gcs(y));
  }

  lemma RelayedConcat(a: seq<byte>, b: seq<byte>)
    requires |a| % 8 == 0
    ensures Relayed(a + b) == Relayed(a) + Relayed(b)
  {
    CountersConcat(a, b);
    EncodeForFpgaConcat(Counters(a), Counters(b));
  }

  lemma NextStretch(content: seq<byte>, done: nat, len: nat)
    requires done <= |content| && len <= |content[done..]|
    ensures content[..done] + content[done..][..len] == content[..done + len]
    ensures content[done..][len..] == content[done + len..]
  {
  }

  lemma MultipleAdds(a: nat, b: nat, unit: nat)
    requires unit > 0 && a % unit == 0 && b % unit == 0
    ensures (a + b) % unit == 0
  {
    RemainderIsUnique(a + b, unit, a / unit + b / unit, 0);
  }

  /** Bob's outputs hold exactly what the given bytes of the click fifo put there; the user fifo gets
      the same bytes as Alice. */
  ghost predicate Forwarded(consumed: seq<byte>, out: Outputs)
    reads out.Sinks()
  {
    && out.alice.written == ToAlice(consumed)
    && out.gcw.written == ToFpga(consumed)
    && out.results.written == ToResults(consumed)
    && (out.user != null ==> out.user.written == ToAlice(consumed))
  }

  /** They hold all of `finished` and nothing but a part of `consumed`. */
  ghost predicate ForwardedBetween(finished: seq<byte>, consumed: seq<byte>, out: Outputs)
    reads out.Sinks()
  {
    && ToAlice(finished) <= out.alice.written <= ToAlice(consumed)
    && ToFpga(finished) <= out.gcw.written <= ToFpga(consumed)
    && ToResults(finished) <= out.results.written <= ToResults(consumed)
    && (out.user != null ==> ToAlice(finished) <= out.user.written <= ToAlice(consumed))
  }

  /** Where Bob writes: the link to Alice, his FPGA, the result fifo and, if configured, a user fifo. */
  datatype Outputs = Outputs(alice: ByteSink, gcw: ByteSink, results: ByteSink, user: ByteSink?) {
    predicate Distinct() {
      && alice != gcw && alice != results && gcw != results
      && user != alice && user != gcw && user != results
    }

    function Sinks(): set<object> {
      {alice, gcw, results} + if user == null then {} else {user}
    }
  }

  /** One round of `send_gc`: read a batch, send it to Alice, write it to the FPGA, write the results.
      It stops at the first write that fails, so a sink that got anything follows complete ones. */
  method ForwardBatch(gcr: ByteSource, out: Outputs, readLength: nat)
    returns (ghost len: nat, ended: bool, failed: bool, aligned: bool)
    requires 1 <= readLength <= BATCHSIZE && out.Distinct()
    modifies gcr`pending, out.Sinks()
    ensures ended <==> old(gcr.pending) == []
    ensures len <= |old(gcr.pending)| && gcr.pending == old(gcr.pending)[len..]
    ensures (ended <==> len == 0) && len <= readLength * 16
    ensures aligned <==> len % 16 == 0
    ensures ended ==> !failed
    ensures var chunk := old(gcr.pending)[..len];
            && Extended(old(out.alice.written), out.alice.written, ToAlice(chunk), !failed)
            && Extended(old(out.gcw.written), out.gcw.written, ToFpga(chunk), !failed)
            && Extended(old(out.results.written), out.results.written, ToResults(chunk), !failed)
            && (out.user != null ==> Extended(old(out.user.written), out.user.written, ToAlice(chunk), !failed))
    ensures out.gcw.written != old(out.gcw.written) ==>
      out.alice.written == old(out.alice.written) + ToAlice(old(gcr.pending)[..len])
    ensures out.results.written != old(out.results.written) ==>
      out.gcw.written == old(out.gcw.written) + ToFpga(old(gcr.pending)[..len])
    ensures out.user != null && out.user.written != old(if out.user == null then [] else out.user.written) ==>
      out.results.written == old(out.results.written) + ToResults(old(gcr.pending)[..len])
  {
    hide EncodeCounters, EncodeForFpga, Clicks;
    var r;
    r, len := ProcessGcrStream(gcr, readLength);
    if r.Len0? {
      assert ToAlice([]) == [] && ToFpga([]) == [] && ToResults([]) == [] by { NothingForwarded(); }
      return len, true, false, true;
    }
    var ok := WriteRound(r.gc, r.result[..r.numClicks], r.numClicks, out);
    return len, false, !ok, r.aligned;
  }

  lemma NothingForwarded()
    ensures ToAlice([]) == [] && ToFpga([]) == [] && ToResults([]) == []
  {
  }

  /** The writes of a round, in order, up to the first that fails. */
  method WriteRound(gc: array<u64>, result: seq<byte>, numClicks: nat, out: Outputs) returns (ok: bool)
    requires numClicks <= gc.Length && out.Distinct()
    modifies out.Sinks()
    ensures Extended(old(out.alice.written), out.alice.written, EncodeCounters(gc[..numClicks]), ok)
    ensures Extended(old(out.gcw.written), out.gcw.written, EncodeForFpga(gc[..numClicks]), ok)
    ensures Extended(old(out.results.written), out.results.written, result, ok)
    ensures out.user != null ==>
      Extended(old(out.user.written), out.user.written, EncodeCounters(gc[..numClicks]), ok)
    ensures out.gcw.written != old(out.gcw.written) ==>
      out.alice.written == old(out.alice.written) + EncodeCounters(gc[..numClicks])
    ensures out.results.written != old(out.results.written) ==>
      out.gcw.written == old(out.gcw.written) + EncodeForFpga(gc[..numClicks])
    ensures out.user != null && out.user.written != old(if out.user == null then [] else out.user.written) ==>
      out.results.written == old(out.results.written) + result
  {
    hide EncodeCounters, EncodeForFpga;
    ok := WriteGcToAlice(gc, out.alice, numClicks);
    if !ok {
      return;
    }
    ok := WriteGcToFpga(gc, out.gcw, numClicks);
    if !ok {
      return;
    }
    ok := out.results.WriteAll(result);
    if ok && out.user != null {
      ok := WriteGcToAlice(gc, out.user, numClicks);
    }
  }

  /** How far Bob has come: `taken` bytes off his click fifo, `finished` of them in full rounds. As long
      as every top-up read was complete, the outputs are in step with that. */
  ghost predicate SentSoFar(content: seq<byte>, finished: nat, taken: nat, failed: bool, allAligned: bool, out: Outputs)
    reads out.Sinks()
  {
    && finished <= taken <= |content| && taken - finished <= BATCHSIZE * 16
    && (!failed ==> finished == taken)
    && (allAligned ==> ForwardedBetween(content[..finished], content[..taken], out))
    && (allAligned && !failed ==> taken % 16 == 0 && Forwarded(content[..taken], out))
  }

  /** The same round as part of the whole stream. */
  method NextRound(gcr: ByteSource, out: Outputs, readLength: nat,
    ghost content: seq<byte>, ghost taken: nat, allAligned: bool)
    returns (ghost len: nat, ended: bool, failed: bool, stillAligned: bool)
    requires 1 <= readLength <= BATCHSIZE && out.Distinct()
    requires SentSoFar(content, taken, taken, false, allAligned, out) && gcr.pending == content[taken..]
    modifies gcr`pending, out.Sinks()
    ensures taken + len <= |content| && gcr.pending == content[taken + len..]
    ensures (ended <==> taken == |content|) && (ended <==> len == 0) && (ended ==> !failed)
    ensures var finished := if failed then taken else taken + len;
            SentSoFar(content, finished, taken + len, failed, stillAligned, out)
  {
    hide ToAlice, ToFpga, ToResults;
    var aligned;
    len, ended, failed, aligned := ForwardBatch(gcr, out, readLength);
    stillAligned := allAligned && aligned;
    NextStretch(content, taken, len);
    if allAligned {
      OutputsConcat(content[..taken], content[taken..][..len]);
    }
    if stillAligned {
      MultipleAdds(taken, len, 16);
    }
  }

  /** `send_gc`: it runs until the click fifo ends or a write fails. When every top-up read was
      complete, all outputs got exactly the clicks taken up to the last full round, plus at most a
      first part of the batch in which a write failed. */
  method SendGc(gcr: ByteSource, out: Outputs)
    returns (allAligned: bool, failed: bool, ghost finished: nat, ghost taken: nat)
    requires out.Distinct() && Forwarded([], out)
    modifies gcr`pending, out.Sinks()
    ensures finished <= taken <= |old(gcr.pending)| && taken - finished <= BATCHSIZE * 16
    ensures gcr.pending == old(gcr.pending)[taken..]
    ensures !failed ==> finished == taken == |old(gcr.pending)|
    ensures allAligned && !failed ==> Forwarded(old(gcr.pending), out)
    ensures allAligned ==> ForwardedBetween(old(gcr.pending)[..finished], old(gcr.pending)[..taken], out)
  {
    ghost var content := gcr.pending;
    taken, finished, failed, allAligned := 0, 0, false, true;
    var readLength, ended := 1, false;
    assert content[..0] == [];
    FirstReadLength();
    hide Forwarded, ForwardedBetween, NextReadLength, IsReadLength;
    while !ended && !failed
      modifies gcr`pending, out.Sinks()
      invariant SentSoFar(content, finished, taken, failed, allAligned, out)
      invariant taken <= |content| && gcr.pending == content[taken..]
      invariant ended ==> !failed && taken == |content|
      invariant 1 <= readLength <= BATCHSIZE && IsReadLength(readLength)
      decreases |content| - taken, !ended && !failed
    {
      ghost var len;
      len, ended, failed, allAligned := NextRound(gcr, out, readLength, content, taken, allAligned);
      var timeMs: nat := *;
      ReadLengthStep(readLength, timeMs);
      readLength := NextReadLength(readLength, timeMs);
      finished := if failed then taken else taken + len;
      taken := taken + len;
    }
    assert !failed ==> content[..taken] == content;
  }

  lemma FirstReadLength()
    ensures IsReadLength(1)
  {
    assert Pow2(0) == 1;
  }

  /** `recv_gc`. RUNNING may be cleared by the other thread at any time, and a write may fail. When
      every top-up read was complete, Alice's FPGA got exactly the counters of the bytes taken off the
      link, and all of them if the loop ended by end of stream; of the array in which a write failed
      it got a first part. */
  method RecvGc(bob: ByteSource, gcw: ByteSink)
    returns (ghost taken: nat, ghost finished: nat, allAligned: bool, eof: bool, failed: bool)
    requires gcw.written == []
    modifies bob`pending, gcw`written
    ensures finished <= taken <= |old(bob.pending)| && bob.pending == old(bob.pending)[taken..]
    ensures !failed ==> finished == taken
    ensures allAligned && !failed ==> taken % 8 == 0 && gcw.written == Relayed(old(bob.pending)[..taken])
    ensures allAligned ==>
      Relayed(old(bob.pending)[..finished]) <= gcw.written <= Relayed(old(bob.pending)[..taken])
    ensures allAligned && eof ==> taken == |old(bob.pending)| && !failed
  {
    ghost var content := bob.pending;
    taken, finished, allAligned, eof, failed := 0, 0, true, false, false;
    assert content[..0] == [];
    hide Relayed;
    RelayedNothing();
    var running: bool := *;
    while running && !eof && !failed
      modifies bob`pending, gcw`written
      invariant finished <= taken <= |content| && bob.pending == content[taken..]
      invariant (!failed ==> finished == taken) && !(failed && eof)
      invariant allAligned && !failed ==> taken % 8 == 0 && gcw.written == Relayed(content[..taken])
      invariant allAligned ==> Relayed(content[..finished]) <= gcw.written <= Relayed(content[..taken])
      invariant allAligned && eof ==> taken == |content|
      decreases |bob.pending|, !eof && !failed
    {
      ghost var len;
      var aligned;
      len, aligned, eof, failed := RelayOnce(bob, gcw, content, taken, allAligned);
      if aligned && taken % 8 == 0 {
        MultipleAdds(taken, len, 8);
      }
      allAligned := allAligned && aligned;
      taken := taken + len;
      if !failed {
        finished := taken;
      }
      running := *;
    }
  }

  lemma RelayedNothing()
    ensures Relayed([]) == []
  {
  }

  /** One turn of the loop: read counters and write them, as part of the whole stream. */
  method RelayOnce(bob: ByteSource, gcw: ByteSink, ghost content: seq<byte>, ghost taken: nat, ghost inStep: bool)
    returns (ghost len: nat, aligned: bool, eof: bool, failed: bool)
    requires taken <= |content| && bob.pending == content[taken..]
    requires inStep ==> taken % 8 == 0 && gcw.written == Relayed(content[..taken])
    modifies bob`pending, gcw`written
    ensures taken + len <= |content| && bob.pending == content[taken + len..]
    ensures (aligned <==> len % 8 == 0) && !(eof && failed)
    ensures len == 0 ==> eof
    ensures aligned && eof ==> taken + len == |content|
    ensures inStep ==> Relayed(content[..taken]) <= gcw.written <= Relayed(content[..taken + len])
    ensures inStep && !failed ==> gcw.written == Relayed(content[..taken + len])
  {
    hide Counters, EncodeForFpga;
    var gc, numClicks;
    gc, numClicks, aligned, len := ReadGcFromBob(bob);
    NextStretch(content, taken, len);
    if inStep {
      RelayedConcat(content[..taken], content[taken..][..len]);
    }
    eof, failed := numClicks == 0, false;
    if eof {
      NoneRelayed(content[taken..][..len]);
    } else {
      var ok := WriteBatches(gc, numClicks, gcw);
      failed := !ok;
    }
  }

  lemma NoneRelayed(received: seq<byte>)
    requires |received| < 8
    ensures Relayed(received) == []
  {
  }

  /** `gc_tmp[0..num].copy_from_slice(&gc[pos..pos+num])` and the write of that batch. */
  method WriteSlice(gc: array<u64>, pos: nat, num: nat, gcw: ByteSink) returns (ok: bool)
    requires pos + num <= gc.Length && num <= BATCHSIZE
    modifies gcw`written
    ensures Extended(old(gcw.written), gcw.written, EncodeForFpga(gc[pos..pos + num]), ok)
  {
    var gcTmp := new u64[BATCHSIZE](_ => 0);
    forall j | 0 <= j < num {
      gcTmp[j] := gc[pos + j];
    }
    assert gcTmp[..num] == gc[pos..pos + num];
    ok := WriteGcToFpga(gcTmp, gcw, num);
  }

  lemma SumTail(nums: seq<nat>, i: nat)
    requires i < |nums|
    ensures Sum(nums[i..]) == nums[i] + Sum(nums[i + 1..])
  {
    assert nums[i..][1..] == nums[i + 1..];
  }

  lemma EncodeSlices(all: seq<u64>, pos: nat, end: nat)
    requires pos <= end <= |all|
    ensures var a, b, c := EncodeForFpga(all[..pos]), EncodeForFpga(all[pos..end]), EncodeForFpga(all[end..]);
            EncodeForFpga(all[..end]) == a + b && EncodeForFpga(all) == a + b + c
  {
    hide EncodeForFpga;
    EncodeParts(all[..end], pos);
    EncodeParts(all, end);
    SlicesOfTake(all, pos, end);
  }

  lemma SlicesOfTake<T>(s: seq<T>, pos: nat, end: nat)
    requires pos <= end <= |s|
    ensures s[..end][..pos] == s[..pos] && s[..end][pos..] == s[pos..end]
  {
  }

  lemma EncodeParts(gcs: seq<u64>, n: nat)
    requires n <= |gcs|
    ensures EncodeForFpga(gcs) == EncodeForFpga(gcs[..n]) + EncodeForFpga(gcs[n..])
  {
    assert gcs[..n] + gcs[n..] == gcs;
    EncodeForFpgaConcat(gcs[..n], gcs[n..]);
  }

  lemma ExtendedFurther(before: seq<byte>, after: seq<byte>, a: seq<byte>, b: seq<byte>, c: seq<byte>, ok: bool)
    requires Extended(before + a, after, b, ok)
    ensures Extended(before, after, a + b + c, false)
    ensures ok ==> after == before + (a + b)
  {
    assert before + a + b == before + (a + b);
    assert before + (a + b) <= before + (a + b + c);
  }

  lemma SliceExtends(before: seq<byte>, after: seq<byte>, all: seq<u64>, pos: nat, end: nat, ok: bool)
    requires pos <= end <= |all|
    requires Extended(before + EncodeForFpga(all[..pos]), after, EncodeForFpga(all[pos..end]), ok)
    ensures Extended(before, after, EncodeForFpga(all), false)
    ensures ok ==> after == before + EncodeForFpga(all[..end])
  {
    hide EncodeForFpga, Extended;
    EncodeSlices(all, pos, end);
    ExtendedFurther(before, after, EncodeForFpga(all[..pos]), EncodeForFpga(all[pos..end]),
      EncodeForFpga(all[end..]), ok);
  }

  lemma ExtendedFully(before: seq<byte>, all: seq<byte>)
    ensures Extended(before, before + all, all, true)
  {
  }

  /** The slicing loop, for any batch list that adds up to the click count. */
  method WriteSlices(gc: array<u64>, nums: seq<nat>, numClicks: nat, gcw: ByteSink) returns (ok: bool)
    requires numClicks <= gc.Length && Sum(nums) == numClicks
    requires forall i :: 0 <= i < |nums| ==> nums[i] <= BATCHSIZE
    modifies gcw`written
    ensures Extended(old(gcw.written), gcw.written, EncodeForFpga(gc[..numClicks]), ok)
  {
    var pos: nat := 0;
    ghost var all := gc[..numClicks];
    ghost var before := gcw.written;
    assert nums[0..] == nums && all[..0] == [];
    assert EncodeForFpga(all[..0]) == [];
    hide EncodeForFpga, Extended;
    for i := 0 to |nums|
      modifies gcw`written
      invariant pos <= numClicks && pos + Sum(nums[i..]) == numClicks
      invariant gcw.written == before + EncodeForFpga(all[..pos])
    {
      var num := nums[i];
      SumTail(nums, i);
      assert gc[pos..pos + num] == all[pos..pos + num];
      ok := WriteSlice(gc, pos, num, gcw);
      SliceExtends(before, gcw.written, all, pos, pos + num, ok);
      if !ok {
        return false;
      }
      pos := pos + num;
    }
    assert all[..pos] == all;
    ok := true;
    assert Extended(before, gcw.written, EncodeForFpga(all), true) by { ExtendedFully(before, EncodeForFpga(all)); }
  }

  /** Writes the received counters to the FPGA in power-of-two slices. */
  method WriteBatches(gc: array<u64>, numClicks: nat, gcw: ByteSink) returns (ok: bool)
    requires numClicks <= gc.Length
    modifies gcw`written
    ensures Extended(old(gcw.written), gcw.written, EncodeForFpga(gc[..numClicks]), ok)
  {
    var numClicksArray := DecomposeNumClicks(numClicks, LOG_BATCHSIZE);
    BatchSizeIsPower();
    ok := WriteSlices(gc, numClicksArray, numClicks, gcw);
  }
}
