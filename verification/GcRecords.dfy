/** Sequences of click records and counters on byte streams (gc/src/hw.rs). */
module GcRecords {
  import opened Bytes
  import opened GcCodec

  datatype Click = Click(gc: u64, result: byte)

  /** Decodes the whole 16-byte records of a byte sequence; a partial record at the end is dropped. */
  function Clicks(bs: seq<byte>): (cs: seq<Click>)
    ensures |cs| == |bs| / 16
    ensures forall i :: 0 <= i < |cs| ==> cs[i].gc < TWO_TO_THE_49
  {
    if |bs| < 16 then []
    else
      var (gc, result) := SplitGcr(bs[..8]);
      [Click(gc, result)] + Clicks(bs[16..])
  }

  /** Decodes the whole 8-byte counters of a byte sequence; a partial counter at the end is dropped. */
  function Counters(bs: seq<byte>): (gcs: seq<u64>)
    ensures |gcs| == |bs| / 8
  {
    if |bs| < 8 then [] else [Word(bs[..8])] + Counters(bs[8..])
  }

  function Word(bs: seq<byte>): (n: u64)
    requires |bs| == 8
    ensures n == FromLe(bs)
  {
    EightByteRange();
    FromLe(bs)
  }

  lemma EightByteRange()
    ensures Range(8) == TWO_TO_THE_64
  {
    assert Range(4) == 0x1_0000_0000;
  }

  function Gcs(cs: seq<Click>): (gcs: seq<u64>)
    ensures |gcs| == |cs|
    ensures forall i :: 0 <= i < |cs| ==> gcs[i] == cs[i].gc
  {
    seq(|cs|, i requires 0 <= i < |cs| => cs[i].gc)
  }

  function Results(cs: seq<Click>): (rs: seq<byte>)
    ensures |rs| == |cs|
    ensures forall i :: 0 <= i < |cs| ==> rs[i] == cs[i].result
  {
    seq(|cs|, i requires 0 <= i < |cs| => cs[i].result)
  }

  /** What is sent to Alice and to the user fifo: eight little-endian bytes a counter. */
  function EncodeCounters(gcs: seq<u64>): (bs: seq<byte>)
    ensures |bs| == 8 * |gcs|
  {
    if gcs == [] then [] else ToLe(gcs[0], 8) + EncodeCounters(gcs[1..])
  }

  /** What is written to an FPGA: one 16-byte record a counter. */
  function EncodeForFpga(gcs: seq<u64>): (bs: seq<byte>)
    ensures |bs| == 16 * |gcs|
  {
    if gcs == [] then [] else GcForFpga(gcs[0]) + EncodeForFpga(gcs[1..])
  }

  /** The counters an FPGA has received, read back from the records written to it. */
  function FpgaCounters(bs: seq<byte>): (gcs: seq<u64>)
    ensures |gcs| == |bs| / 16
  {
    Gcs(Clicks(bs))
  }

  ghost predicate Representable(gcs: seq<u64>) {
    forall i :: 0 <= i < |gcs| ==> gcs[i] < TWO_TO_THE_49
  }

  lemma SliceOfDrop(bs: seq<byte>, drop: nat, lo: nat, hi: nat)
    requires lo <= hi && drop + hi <= |bs|
    ensures bs[drop..][lo..hi] == bs[drop + lo..drop + hi]
  {
  }

  lemma GcsConcat(x: seq<Click>, y: seq<Click>)
    ensures Gcs(x + y) == Gcs(x) + Gcs(y)
    ensures Results(x + y) == Results(x) + Results(y)
  {
  }

  lemma {:induction false} ClicksConcat(a: seq<byte>, b: seq<byte>)
    requires |a| % 16 == 0
    ensures Clicks(a + b) == Clicks(a) + Clicks(b)
  {
    if a == [] {
      assert a + b == b;
    } else {
      assert (a + b)[..8] == a[..8] && (a + b)[16..] == a[16..] + b;
      ClicksConcat(a[16..], b);
    }
  }

  lemma {:induction false} ClicksAt(bs: seq<byte>, i: nat)
    requires 16 * i + 16 <= |bs|
    ensures var gcr := SplitGcr(bs[16 * i..16 * i + 8]); Clicks(bs)[i] == Click(gcr.0, gcr.1)
  {
    if i == 0 {
    } else {
      ClicksAt(bs[16..], i - 1);
      SliceOfDrop(bs, 16, 16 * (i - 1), 16 * (i - 1) + 8);
    }
  }

  lemma {:induction false} CountersConcat(a: seq<byte>, b: seq<byte>)
    requires |a| % 8 == 0
    ensures Counters(a + b) == Counters(a) + Counters(b)
  {
    if a == [] {
      assert a + b == b;
    } else {
      var head, rest := a[..8], a[8..];
      assert (a + b)[..8] == head && (a + b)[8..] == rest + b;
      CountersConcat(rest, b);
      assert Counters(a + b) == [Word(head)] + (Counters(rest) + Counters(b));
    }
  }

  lemma {:induction false} CountersAt(bs: seq<byte>, i: nat)
    requires 8 * i + 8 <= |bs|
    ensures Counters(bs)[i] == Word(bs[8 * i..8 * i + 8])
  {
    assert Counters(bs) == [Word(bs[..8])] + Counters(bs[8..]);
    hide Counters, Word;
    if i == 0 {
    } else {
      CountersAt(bs[8..], i - 1);
      SliceOfDrop(bs, 8, 8 * (i - 1), 8 * (i - 1) + 8);
    }
  }

  lemma {:induction false} EncodeCountersConcat(a: seq<u64>, b: seq<u64>)
    ensures EncodeCounters(a + b) == EncodeCounters(a) + EncodeCounters(b)
  {
    if a == [] {
      assert a + b == b;
    } else {
      assert (a + b)[1..] == a[1..] + b;
      EncodeCountersConcat(a[1..], b);
    }
  }

  lemma {:induction false} EncodeForFpgaConcat(a: seq<u64>, b: seq<u64>)
    ensures EncodeForFpga(a + b) == EncodeForFpga(a) + EncodeForFpga(b)
  {
    if a == [] {
      assert a + b == b;
    } else {
      assert (a + b)[1..] == a[1..] + b;
      EncodeForFpgaConcat(a[1..], b);
    }
  }

  /** Counters survive the trip over the wire, for all 64-bit values. */
  lemma {:induction false} CountersRoundTrip(gcs: seq<u64>)
    ensures Counters(EncodeCounters(gcs)) == gcs
  {
    if gcs == [] {
    } else {
      var head := ToLe(gcs[0], 8);
      assert FromLe(head) == gcs[0] by {
        FromLeToLe(gcs[0], 8);
        EightByteRange();
      }
      CountersRoundTrip(gcs[1..]);
      assert EncodeCounters(gcs)[..8] == head && EncodeCounters(gcs)[8..] == EncodeCounters(gcs[1..]);
    }
  }

  /** Counters below 2^49 survive the trip through FPGA records. */
  lemma {:induction false} FpgaRoundTrip(gcs: seq<u64>)
    requires Representable(gcs)
    ensures FpgaCounters(EncodeForFpga(gcs)) == gcs
  {
    if gcs == [] {
    } else {
      var head := GcForFpga(gcs[0]);
      SplitAfterFormat(gcs[0]);
      FpgaRoundTrip(gcs[1..]);
      assert EncodeForFpga(gcs)[..8] == head[..8];
      assert EncodeForFpga(gcs)[16..] == EncodeForFpga(gcs[1..]);
      var cs := Clicks(EncodeForFpga(gcs));
      assert cs[0].gc == gcs[0] && cs[1..] == Clicks(EncodeForFpga(gcs[1..]));
      assert forall i :: 1 <= i < |cs| ==> cs[i].gc == Gcs(cs[1..])[i - 1];
    }
  }

  lemma FpgaCountersAppend(bs: seq<byte>, gcs: seq<u64>)
    requires |bs| % 16 == 0 && Representable(gcs)
    ensures FpgaCounters(bs + EncodeForFpga(gcs)) == FpgaCounters(bs) + gcs
  {
    ClicksConcat(bs, EncodeForFpga(gcs));
    FpgaRoundTrip(gcs);
    GcsConcat(Clicks(bs), Clicks(EncodeForFpga(gcs)));
  }

  lemma {:induction false} EncodeDrop(gcs: seq<u64>, n: nat)
    requires n <= |gcs|
    ensures EncodeCounters(gcs)[8 * n..] == EncodeCounters(gcs[n..])
  {
    if n > 0 {
      EncodeDrop(gcs[1..], n - 1);
      assert gcs[1..][n - 1..] == gcs[n..];
    } else {
      assert gcs[0..] == gcs;
    }
  }

  lemma EncodeTake(gcs: seq<u64>, n: nat)
    requires n <= |gcs|
    ensures EncodeCounters(gcs)[..8 * n] == EncodeCounters(gcs[..n])
  {
    assert gcs[..n] + gcs[n..] == gcs;
    EncodeCountersConcat(gcs[..n], gcs[n..]);
  }

  /** Taking the next whole counters off a stream of encoded counters decodes to exactly those. */
  lemma NextCounters(gcs: seq<u64>, count: nat)
    requires count <= |gcs|
    ensures Counters(EncodeCounters(gcs)[..8 * count]) == gcs[..count]
    ensures EncodeCounters(gcs)[8 * count..] == EncodeCounters(gcs[count..])
  {
    EncodeTake(gcs, count);
    CountersRoundTrip(gcs[..count]);
    EncodeDrop(gcs, count);
  }

  // ---- the click fifo as the detector fills it ----

  /** A record of the fifo: what it carries, its six spare bits and its nine spare bytes. */
  datatype Raw = Raw(gc: nat, result: nat, spare: nat, others: seq<byte>) {
    predicate Valid() {
      gc < TWO_TO_THE_49 && result < 2 && spare < 64 && |others| == 9
    }

    function Laid(): (bs: seq<byte>)
      requires Valid()
      ensures |bs| == 16
    {
      GcCodec.Laid(gc, result, spare, others[0]) + others[1..]
    }
  }

  type Record = r: Raw | r.Valid() witness Raw(0, 0, 0, [0, 0, 0, 0, 0, 0, 0, 0, 0])

  function Fifo(records: seq<Record>): (bs: seq<byte>)
    ensures |bs| == 16 * |records|
  {
    if records == [] then [] else records[0].Laid() + Fifo(records[1..])
  }

  lemma ClicksOfNext(record: seq<byte>, rest: seq<byte>)
    requires |record| == 16
    ensures var gcr := SplitGcr(record[..8]); Clicks(record + rest) == [Click(gcr.0, gcr.1)] + Clicks(rest)
  {
    hide SplitGcr;
    assert (record + rest)[..8] == record[..8] && (record + rest)[16..] == rest;
  }

  /** The clicks of a fifo are exactly the counters and results laid out in it, in order, whatever its
      spare bits and bytes hold. */
  lemma {:induction false} ClicksOfFifo(records: seq<Record>, part: seq<byte>)
    requires |part| < 16
    ensures |Clicks(Fifo(records) + part)| == |records|
    ensures forall i :: 0 <= i < |records| ==>
      Clicks(Fifo(records) + part)[i] == Click(records[i].gc, records[i].result)
  {
    if records == [] {
      assert Fifo(records) + part == part;
    } else {
      hide SplitGcr, GcCodec.Laid, Clicks;
      var r, rest := records[0], Fifo(records[1..]) + part;
      assert Fifo(records) + part == r.Laid() + rest;
      assert r.Laid()[..8] == GcCodec.Laid(r.gc, r.result, r.spare, r.others[0]);
      ClicksOfNext(r.Laid(), rest);
      SplitAfterLaid(r.gc, r.result, r.spare, r.others[0]);
      ClicksOfFifo(records[1..], part);
    }
  }

  /** Every sequence of whole records is such a fifo. */
  lemma {:induction false} EveryFifoIsLaid(bs: seq<byte>) returns (records: seq<Record>)
    requires |bs| % 16 == 0
    ensures Fifo(records) == bs
  {
    if bs == [] {
      records := [];
    } else {
      var gc, result, spare := EveryRecordIsLaid(bs[..8]);
      var r := Raw(gc, result, spare, bs[7..16]);
      assert r.Laid() == bs[..16];
      var others := EveryFifoIsLaid(bs[16..]);
      records := [r] + others;
    }
  }
}
