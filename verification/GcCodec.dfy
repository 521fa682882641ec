/** The click record codec of gc/src/hw.rs: a 16-byte record carries a counter and a result bit. */
module GcCodec {
  import opened Bytes

  const TWO_TO_THE_49: nat := 0x2_0000_0000_0000

  /** Bytes 0..5 of a record are the upper 48 bits of the counter; byte 6 holds the lowest counter
      bit (bit 0) and the detector result (bit 1). Returns the counter and the result. */
  function SplitGcr(buf: seq<byte>): (gcr: (u64, byte))
    requires |buf| == 8
    ensures gcr.0 < TWO_TO_THE_49 && gcr.1 < 2
  {
    var cleared := buf[6 := 0][7 := 0];
    ClearedHighBytes(buf);
    (FromLe(cleared) * 2 + buf[6] % 2, (buf[6] / 2) % 2)
  }

  /** The 16-byte record written back to the FPGA; byte 6 is overwritten by the lowest bit. */
  function GcForFpga(gc: u64): (buf: seq<byte>)
    ensures |buf| == 16
  {
    ToLe(gc / 2, 16)[6 := gc % 2]
  }

  lemma ClearedHighBytes(buf: seq<byte>)
    requires |buf| == 8
    ensures FromLe(buf[6 := 0][7 := 0]) == FromLe(buf[..6])
    ensures FromLe(buf[..6]) < Range(6) == 0x1_0000_0000_0000
  {
    var cleared := buf[6 := 0][7 := 0];
    SixByteRange();
    assert cleared == buf[..6] + Zeros(2) by { assert Zeros(1) == [0] && Zeros(2) == [0, 0]; }
    FromLeZeros(buf[..6], 2);
  }

  lemma {:induction false} FromLeZeros(bs: seq<byte>, k: nat)
    ensures FromLe(bs + Zeros(k)) == FromLe(bs)
  {
    if |bs| > 0 {
      assert (bs + Zeros(k))[1..] == bs[1..] + Zeros(k);
      FromLeZeros(bs[1..], k);
    } else if k > 0 {
      assert (bs + Zeros(k))[1..] == [] + Zeros(k - 1);
      FromLeZeros([], k - 1);
    }
  }

  /** Splitting a formatted counter yields the counter modulo 2^49 and a cleared result bit, so a
      counter survives the trip exactly when it is below 2^49. */
  lemma SplitAfterFormat(gc: u64)
    ensures SplitGcr(GcForFpga(gc)[..8]) == (gc % TWO_TO_THE_49, 0)
    ensures SplitGcr(GcForFpga(gc)[..8]).0 == gc <==> gc < TWO_TO_THE_49
  {
    hide FromLe, ToLe;
    var buf := GcForFpga(gc)[..8];
    assert FromLe(buf[..6]) == (gc / 2) % 0x1_0000_0000_0000 by { FormattedPrefix(gc); }
    assert buf[6] == gc % 2;
    ClearedHighBytes(buf);
    DoubleModulus(gc);
  }

  lemma FormattedPrefix(gc: u64)
    ensures FromLe(GcForFpga(gc)[..8][..6]) == (gc / 2) % 0x1_0000_0000_0000
  {
    var low := ToLe(gc / 2, 6);
    assert GcForFpga(gc)[..8][..6] == low by {
      ToLePrefix(gc / 2, 6, 16);
      assert ToLe(gc / 2, 16)[6 := gc % 2][..8][..6] == ToLe(gc / 2, 16)[..6];
    }
    FromLeToLe(gc / 2, 6);
    SixByteRange();
  }

  lemma DoubleModulus(gc: nat)
    ensures ((gc / 2) % 0x1_0000_0000_0000) * 2 + gc % 2 == gc % TWO_TO_THE_49
  {
  }

  lemma SixByteRange()
    ensures Range(6) == 0x1_0000_0000_0000
  {
    assert Range(1) == 256 && Range(3) == 0x1_00_00_00;
  }

  lemma {:induction false} ToLePrefix(n: nat, used: nat, width: nat)
    requires used <= width
    ensures ToLe(n, width)[..used] == ToLe(n, used)
  {
    if used == 0 {
    } else {
      ToLePrefix(n / 256, used - 1, width - 1);
      assert ToLe(n, width)[..used] == [n % 256] + ToLe(n / 256, width - 1)[..used - 1];
    }
  }

  /** Formatting a split record gives back bytes 0..5 and the low bit of byte 6; the result bit and
      every other byte come out zero. */
  lemma FormatAfterSplit(buf: seq<byte>)
    requires |buf| == 8
    ensures GcForFpga(SplitGcr(buf).0) == buf[..6] + [buf[6] % 2] + Zeros(9)
  {
    var gc, low := SplitGcr(buf).0, buf[..6];
    assert gc / 2 == FromLe(low) && gc % 2 == buf[6] % 2 by { ClearedHighBytes(buf); }
    assert ToLe(gc / 2, 16) == low + Zeros(10) by {
      ToLeSmall(gc / 2, 6, 16);
      ToLeFromLe(low);
    }
    UpdateAfterPrefix(low, Zeros(9), buf[6] % 2);
  }

  lemma UpdateAfterPrefix(low: seq<byte>, zeros: seq<byte>, b: byte)
    ensures (low + ([0] + zeros))[|low| := b] == low + [b] + zeros
  {
  }

  // ---- records from outside ----

  /** The first eight bytes of a record as the detector lays it out: 48 upper counter bits, lowest bit
      first; then the lowest counter bit, the result and six spare bits; then a spare byte. */
  function Laid(gc: nat, result: nat, spare: nat, last: byte): (buf: seq<byte>)
    requires gc < TWO_TO_THE_49 && result < 2 && spare < 64
    ensures |buf| == 8
  {
    ToLe(gc / 2, 6) + [gc % 2 + 2 * result + 4 * spare, last]
  }

  /** Splitting gives exactly the counter and the result that were laid out, whatever the spare bits. */
  lemma SplitAfterLaid(gc: nat, result: nat, spare: nat, last: byte)
    requires gc < TWO_TO_THE_49 && result < 2 && spare < 64
    ensures SplitGcr(Laid(gc, result, spare, last)) == (gc, result)
  {
    hide FromLe, ToLe;
    var buf := Laid(gc, result, spare, last);
    assert buf[..6] == ToLe(gc / 2, 6);
    SixByteRange();
    FromLeToLe(gc / 2, 6);
    ClearedHighBytes(buf);
    BitsApart(gc % 2, result, spare);
  }

  lemma BitsApart(low: nat, result: nat, spare: nat)
    requires low < 2 && result < 2
    ensures (low + 2 * result + 4 * spare) % 2 == low && (low + 2 * result + 4 * spare) / 2 % 2 == result
  {
  }

  /** Every eight bytes are laid out like that, so this says what splitting gives for any of them. */
  lemma EveryRecordIsLaid(buf: seq<byte>) returns (gc: nat, result: nat, spare: nat)
    requires |buf| == 8
    ensures gc < TWO_TO_THE_49 && result < 2 && spare < 64 && buf == Laid(gc, result, spare, buf[7])
  {
    gc, result, spare := 2 * FromLe(buf[..6]) + buf[6] % 2, buf[6] / 2 % 2, buf[6] / 4;
    ClearedHighBytes(buf);
    ToLeFromLe(buf[..6]);
    assert gc / 2 == FromLe(buf[..6]) && gc % 2 == buf[6] % 2;
    assert buf == buf[..6] + [buf[6], buf[7]];
  }
}
