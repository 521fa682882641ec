/** The stream handling of gc/src/hw.rs, on byte sources whose reads return chunks of arbitrary size
    and sinks whose writes may fail. */
module GcLinks {
  import opened Bytes
  import opened GcCodec
  import opened GcRecords

  const BATCHSIZE: nat := 256
  const TCP_RCV_BATCHSIZE: nat := 1024
  const TIME_TARGET: nat := 20

  /** A blocking file or socket: a read waits for data and returns nothing only at end of stream. */
  class ByteSource {
    /** Every byte that will still arrive before the end of the stream. */
    var pending: seq<byte>

    constructor (content: seq<byte>)
      ensures pending == content
    {
      pending := content;
    }

    /** `read(&mut buf[lo..hi])`: any number of bytes, at least one unless the stream has ended. */
    method Read(buf: array<byte>, lo: nat, hi: nat) returns (len: nat)
      requires lo < hi <= buf.Length
      modifies this`pending, buf
      ensures len <= hi - lo && len <= |old(pending)|
      ensures len == 0 <==> old(pending) == []
      ensures pending == old(pending)[len..]
      ensures buf[..lo] == old(buf[..lo]) && buf[lo..lo + len] == old(pending)[..len]
    {
      if |pending| == 0 {
        return 0;
      }
      len :| 1 <= len <= hi - lo && len <= |pending|;
      forall i | lo <= i < lo + len {
        buf[i] := pending[i - lo];
      }
      pending := pending[len..];
    }
  }

  /** What a write leaves behind: all of the data if it succeeds, else some part from its start. */
  predicate Extended(before: seq<byte>, after: seq<byte>, data: seq<byte>, ok: bool) {
    before <= after <= before + data && (ok ==> after == before + data)
  }

  /** A file or socket that is only written. */
  class ByteSink {
    var written: seq<byte>

    constructor ()
      ensures written == []
    {
      written := [];
    }

    method WriteAll(data: seq<byte>) returns (ok: bool)
      modifies this`written
      ensures Extended(old(written), written, data, ok)
    {
      ok := *;
      var k :| 0 <= k <= |data|;
      if ok {
        k := |data|;
      }
      written := written + data[..k];
    }
  }

  /** One read plus the single top-up read that completes a record cut in the middle. `aligned` is
      false when even the top-up stopped short, which the program only logs. */
  method ReadAligned(source: ByteSource, buf: array<byte>, limit: nat, unit: nat) returns (len: nat, aligned: bool)
    requires unit > 0 && 0 < limit <= buf.Length && limit % unit == 0
    modifies source`pending, buf
    ensures len <= limit && len <= |old(source.pending)|
    ensures source.pending == old(source.pending)[len..] && buf[..len] == old(source.pending)[..len]
    ensures len == 0 <==> old(source.pending) == []
    ensures aligned <==> len % unit == 0
  {
    ghost var content := source.pending;
    len := source.Read(buf, 0, limit);
    aligned := true;
    var rest := len % unit;
    if rest != 0 {
      var missingLen := unit - rest;
      assert len + missingLen == RoundUp(len, unit);
      RoundUpStaysBelow(len, limit, unit);
      var first := len;
      var check := source.Read(buf, first, first + missingLen);
      aligned := check == missingLen;
      len := first + check;
      assert buf[..len] == buf[..first] + buf[first..len];
      assert content[..len] == content[..first] + content[first..][..check];
      assert content[first..][check..] == content[len..];
      TopUpAligns(first, check, unit);
    } else {
      assert buf[..len] == buf[0..len];
    }
  }

  lemma RoundUpStaysBelow(n: nat, limit: nat, unit: nat)
    requires unit > 0 && n <= limit && limit % unit == 0
    ensures RoundUp(n, unit) <= limit
  {
    var m := RoundUp(n, unit);
    var a, b := m / unit, limit / unit;
    assert m == unit * a && limit == unit * b;
    assert unit * (a - b) == m - limit;
    MultiplesAreApart(unit, a - b);
  }

  lemma TopUpAligns(len: nat, check: nat, unit: nat)
    requires unit > 0 && len % unit != 0 && check <= unit - len % unit
    ensures (len + check) % unit == 0 <==> check == unit - len % unit
  {
    var q, r := len / unit, len % unit;
    if check == unit - r {
      RemainderIsUnique(len + check, unit, q + 1, 0);
    } else {
      RemainderIsUnique(len + check, unit, q, r + check);
    }
  }

  datatype GcrRead = Len0 | Batch(gc: array<u64>, result: array<byte>, numClicks: nat, aligned: bool)

  /** Reads one batch of click records from Bob's FPGA and splits it into counters and results. The
      clamp on `num_clicks` never changes it, because a read never exceeds what was asked for. */
  method ProcessGcrStream(file: ByteSource, readLength: nat) returns (r: GcrRead, ghost len: nat)
    requires 1 <= readLength <= BATCHSIZE
    modifies file`pending
    ensures r.Len0? <==> old(file.pending) == []
    ensures len <= |old(file.pending)| && file.pending == old(file.pending)[len..]
    ensures len <= readLength * 16 && (r.Len0? <==> len == 0)
    ensures r.Batch? ==> fresh(r.gc) && fresh(r.result) && r.gc.Length == r.result.Length == BATCHSIZE
    ensures r.Batch? ==> r.numClicks == len / 16 <= readLength && (r.aligned <==> len % 16 == 0)
    ensures r.Batch? ==> r.gc[..r.numClicks] == Gcs(Clicks(old(file.pending)[..len]))
    ensures r.Batch? ==> r.result[..r.numClicks] == Results(Clicks(old(file.pending)[..len]))
  {
    var buf := new byte[BATCHSIZE * 16](_ => 0);
    assert readLength * 16 % 16 == 0;
    var filled, aligned := ReadAligned(file, buf, readLength * 16, 16);
    len := filled;
    if filled == 0 {
      return Len0, len;
    }
    var numClicks := filled / 16;
    if numClicks > readLength {
      numClicks := readLength;
    }
    var gc, result := SplitRecords(buf[..filled], numClicks);
    r := Batch(gc, result, numClicks, aligned);
  }

  /** The decoding loop over the filled part of the buffer. */
  method SplitRecords(filled: seq<byte>, numClicks: nat) returns (gc: array<u64>, result: array<byte>)
    requires numClicks == |filled| / 16 <= BATCHSIZE
    ensures fresh(gc) && fresh(result) && gc.Length == result.Length == BATCHSIZE
    ensures gc[..numClicks] == Gcs(Clicks(filled)) && result[..numClicks] == Results(Clicks(filled))
  {
    ghost var cs := Clicks(filled);
    hide Clicks, SplitGcr;
    gc, result := new u64[BATCHSIZE](_ => 0), new byte[BATCHSIZE](_ => 0);
    for i := 0 to numClicks
      invariant forall j :: 0 <= j < i ==> gc[j] == cs[j].gc && result[j] == cs[j].result
    {
      RecordAt(filled, i);
      var gcr := SplitGcr(filled[16 * i..16 * i + 8]);
      gc[i], result[i] := gcr.0, gcr.1;
    }
  }

  lemma RecordAt(filled: seq<byte>, i: nat)
    requires i < |filled| / 16
    ensures 16 * i + 16 <= |filled|
    ensures var gcr := SplitGcr(filled[16 * i..16 * i + 8]); Clicks(filled)[i] == Click(gcr.0, gcr.1)
  {
    ClicksAt(filled, i);
  }

  /** Receives counters from Bob: at most 1024, exactly those in the bytes taken off the stream. */
  method ReadGcFromBob(bob: ByteSource) returns (gc: array<u64>, numClicks: nat, aligned: bool, ghost len: nat)
    modifies bob`pending
    ensures fresh(gc) && gc.Length == TCP_RCV_BATCHSIZE && numClicks <= 1024
    ensures len <= |old(bob.pending)| && bob.pending == old(bob.pending)[len..]
    ensures numClicks == len / 8 && gc[..numClicks] == Counters(old(bob.pending)[..len])
    ensures aligned <==> len % 8 == 0
    ensures aligned ==> (numClicks == 0 <==> old(bob.pending) == [])
    ensures old(bob.pending) == [] ==> numClicks == 0 && aligned
  {
    var buf := new byte[TCP_RCV_BATCHSIZE * 8](_ => 0);
    var filled;
    filled, aligned := ReadAligned(bob, buf, TCP_RCV_BATCHSIZE * 8, 8);
    len := filled;
    numClicks := filled / 8;
    gc := DecodeCounters(buf, filled, numClicks);
  }

  /** The decoding loop over the filled part of the buffer. */
  method DecodeCounters(buf: array<byte>, len: nat, numClicks: nat) returns (gc: array<u64>)
    requires len <= buf.Length && numClicks == len / 8 && numClicks <= TCP_RCV_BATCHSIZE
    ensures fresh(gc) && gc.Length == TCP_RCV_BATCHSIZE && gc[..numClicks] == Counters(buf[..len])
  {
    gc := new u64[TCP_RCV_BATCHSIZE](_ => 0);
    var filled := buf[..len];
    ghost var gcs := Counters(filled);
    for i := 0 to numClicks
      invariant forall j :: 0 <= j < i ==> gc[j] == gcs[j]
    {
      CountersAt(filled, i);
      gc[i] := Word(filled[8 * i..8 * i + 8]);
    }
    assert gc[..numClicks] == gcs;
  }

  /** `buf[at..at + |data|].copy_from_slice(&data)`. */
  method CopyFromSlice(buf: array<byte>, at: nat, data: seq<byte>)
    requires at + |data| <= buf.Length
    modifies buf
    ensures buf[..at] == old(buf[..at]) && buf[at..at + |data|] == data
  {
    forall j | 0 <= j < |data| {
      buf[at + j] := data[j];
    }
  }

  /** Fills a buffer with one FPGA record a counter and writes it in one go. */
  method WriteGcToFpga(gc: array<u64>, file: ByteSink, numClicks: nat) returns (ok: bool)
    requires numClicks <= gc.Length
    modifies file`written
    ensures Extended(old(file.written), file.written, EncodeForFpga(gc[..numClicks]), ok)
  {
    var buf := new byte[numClicks * 16](_ => 0);
    ghost var gcs := gc[..numClicks];
    for i := 0 to numClicks
      modifies buf
      invariant buf[..i * 16] == EncodeForFpga(gcs[..i])
    {
      CopyFromSlice(buf, i * 16, GcForFpga(gc[i]));
      EncodeForFpgaSnoc(gcs, i);
      assert buf[..(i + 1) * 16] == buf[..i * 16] + buf[i * 16..(i + 1) * 16];
    }
    assert gc[..numClicks] == gcs == gcs[..numClicks];
    ok := file.WriteAll(buf[..numClicks * 16]);
  }

  lemma EncodeForFpgaSnoc(gcs: seq<u64>, i: nat)
    requires i < |gcs|
    ensures EncodeForFpga(gcs[..i + 1]) == EncodeForFpga(gcs[..i]) + GcForFpga(gcs[i])
  {
    assert gcs[..i + 1] == gcs[..i] + [gcs[i]];
    EncodeForFpgaConcat(gcs[..i], [gcs[i]]);
    assert EncodeForFpga([gcs[i]]) == GcForFpga(gcs[i]) + EncodeForFpga([]);
  }

  /** Fills a buffer with eight bytes a counter and writes it: to Alice, or to the user fifo. */
  method WriteGcToAlice(gc: array<u64>, alice: ByteSink, numClicks: nat) returns (ok: bool)
    requires numClicks <= gc.Length
    modifies alice`written
    ensures Extended(old(alice.written), alice.written, EncodeCounters(gc[..numClicks]), ok)
  {
    var buf := new byte[numClicks * 8](_ => 0);
    ghost var gcs := gc[..numClicks];
    for i := 0 to numClicks
      modifies buf
      invariant buf[..i * 8] == EncodeCounters(gcs[..i])
    {
      CopyFromSlice(buf, i * 8, ToLe(gc[i], 8));
      EncodeCountersSnoc(gcs, i);
      assert buf[..(i + 1) * 8] == buf[..i * 8] + buf[i * 8..(i + 1) * 8];
    }
    assert gc[..numClicks] == gcs == gcs[..numClicks];
    ok := alice.WriteAll(buf[..numClicks * 8]);
  }

  lemma EncodeCountersSnoc(gcs: seq<u64>, i: nat)
    requires i < |gcs|
    ensures EncodeCounters(gcs[..i + 1]) == EncodeCounters(gcs[..i]) + ToLe(gcs[i], 8)
  {
    assert gcs[..i + 1] == gcs[..i] + [gcs[i]];
    EncodeCountersConcat(gcs[..i], [gcs[i]]);
    assert EncodeCounters([gcs[i]]) == ToLe(gcs[i], 8) + EncodeCounters([]);
  }
}
