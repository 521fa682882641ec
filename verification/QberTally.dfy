/** The error-rate tally of qber/src/bin/alice.rs:79-169, one round of the receiving loop. */
module QberTally {
  import opened Maybe
  import opened Counting

  const BATCHSIZE: nat := 256
  const U32_RANGE: nat := 0x1_0000_0000

  // ---- packed angles ----

  /** Two bits of angle in nibble j. */
  function AngleBits(b: bv8, j: nat): (r: bv8)
    requires j < 2
    ensures r < 4
  {
    if j == 0 then b & 0x03 else (b & 0x30) >> 4
  }

  /** Two bits of decoy state above the angle in nibble j. */
  function DecoyBits(b: bv8, j: nat): (r: bv8)
    requires j < 2
    ensures r < 4
  {
    if j == 0 then (b & 0x0c) >> 2 else (b & 0xc0) >> 6
  }

  function Packed(angle0: bv8, decoy0: bv8, angle1: bv8, decoy1: bv8): bv8 {
    angle0 | (decoy0 << 2) | (angle1 << 4) | (decoy1 << 6)
  }

  /** The four fields are independent: each comes back whatever the others hold. */
  lemma UnpackPacked(angle0: bv8, decoy0: bv8, angle1: bv8, decoy1: bv8)
    requires angle0 < 4 && decoy0 < 4 && angle1 < 4 && decoy1 < 4
    ensures var b := Packed(angle0, decoy0, angle1, decoy1);
            && AngleBits(b, 0) == angle0 && DecoyBits(b, 0) == decoy0
            && AngleBits(b, 1) == angle1 && DecoyBits(b, 1) == decoy1
  {
  }

  // ---- what is counted ----

  /** The two byte streams of a round: Alice's angle file, and Bob's connection, which carries for
      every batch 128 bytes of angles and then 256 results. */
  datatype Input = Input(angles: seq<bv8>, bob: seq<bv8>)

  datatype Sample = Sample(alice: nat, bob: nat, decoy: nat, zero: bool)

  /** The streams hold the batches that the first n clicks lie in. */
  predicate Covers(inp: Input, n: nat) {
    var batches := (n + BATCHSIZE - 1) / BATCHSIZE;
    128 * batches <= |inp.angles| && 384 * batches <= |inp.bob|
  }

  /** Click i of a batch. */
  function BatchSample(inp: Input, batch: nat, i: nat): (s: Sample)
    requires 128 * batch + 128 <= |inp.angles| && 384 * batch + 384 <= |inp.bob| && i < BATCHSIZE
    ensures s.alice < 4 && s.bob < 4 && s.decoy < 4
  {
    var a, b := inp.angles[128 * batch + i / 2], inp.bob[384 * batch + i / 2];
    Sample(AngleBits(a, i % 2) as nat, AngleBits(b, i % 2) as nat, DecoyBits(a, i % 2) as nat,
      inp.bob[384 * batch + 128 + i] == 0)
  }

  /** Click i of the round. */
  function SampleAt(inp: Input, i: nat): (s: Sample)
    requires Covers(inp, i + 1)
    ensures s.alice < 4 && s.bob < 4 && s.decoy < 4
  {
    BatchSample(inp, i / BATCHSIZE, i % BATCHSIZE)
  }

  /** How many of the first n clicks have these angles and this result. */
  function Cell(inp: Input, n: nat, x: nat, y: nat, zero: bool): nat
    requires Covers(inp, n)
  {
    if n == 0 then 0
    else
      var s := SampleAt(inp, n - 1);
      Cell(inp, n - 1, x, y, zero) + if s.alice == x && s.bob == y && s.zero == zero then 1 else 0
  }

  function Decoys(inp: Input, n: nat, decoy: nat): nat
    requires Covers(inp, n)
  {
    if n == 0 then 0
    else Decoys(inp, n - 1, decoy) + if SampleAt(inp, n - 1).decoy == decoy then 1 else 0
  }

  ghost predicate Tallied(inp: Input, n: nat, m0: array2<nat>, m1: array2<nat>, d: array<nat>)
    reads m0, m1, d
    requires Covers(inp, n)
  {
    && m0.Length0 == m0.Length1 == m1.Length0 == m1.Length1 == d.Length == 4
    && (forall x, y :: 0 <= x < 4 && 0 <= y < 4 ==> m0[x, y] == Cell(inp, n, x, y, true))
    && (forall x, y :: 0 <= x < 4 && 0 <= y < 4 ==> m1[x, y] == Cell(inp, n, x, y, false))
    && (forall k :: 0 <= k < 4 ==> d[k] == Decoys(inp, n, k))
  }

  // ---- rounds as lists of shots ----

  type TwoBits = b: bv8 | b < 4

  /** One click of a round: what Alice played, her decoy state, what Bob played, the two spare bits
      beside it, and the result byte. */
  datatype Shot = Shot(alice: TwoBits, decoy: TwoBits, bob: TwoBits, spare: TwoBits, result: bv8)

  /** Alice's file: two shots a byte. */
  function AliceStream(shots: seq<Shot>): (bs: seq<bv8>)
    ensures |bs| == |shots| / 2
  {
    seq(|shots| / 2, j requires 0 <= j < |shots| / 2 =>
      Packed(shots[2 * j].alice, shots[2 * j].decoy, shots[2 * j + 1].alice, shots[2 * j + 1].decoy))
  }

  function BobAngles(shots: seq<Shot>): (bs: seq<bv8>)
    ensures |bs| == |shots| / 2
  {
    seq(|shots| / 2, j requires 0 <= j < |shots| / 2 =>
      Packed(shots[2 * j].bob, shots[2 * j].spare, shots[2 * j + 1].bob, shots[2 * j + 1].spare))
  }

  function ResultBytes(shots: seq<Shot>): (bs: seq<bv8>)
    ensures |bs| == |shots|
  {
    seq(|shots|, i requires 0 <= i < |shots| => shots[i].result)
  }

  /** Bob's connection: the angles of a batch, two shots a byte, and then its results. */
  function BobStream(shots: seq<Shot>): (bs: seq<bv8>)
    ensures |bs| == 384 * (|shots| / BATCHSIZE)
  {
    if |shots| < BATCHSIZE then []
    else
      var batch := shots[..BATCHSIZE];
      BobAngles(batch) + ResultBytes(batch) + BobStream(shots[BATCHSIZE..])
  }

  /** The streams of a round begin with these shots, a number of whole batches. */
  ghost predicate Carries(inp: Input, shots: seq<Shot>) {
    |shots| % BATCHSIZE == 0 && AliceStream(shots) <= inp.angles && BobStream(shots) <= inp.bob
  }

  function Played(x: nat, y: nat, zero: bool): Shot -> bool {
    (s: Shot) => s.alice as nat == x && s.bob as nat == y && (zero <==> s.result == 0)
  }

  function InState(k: nat): Shot -> bool {
    (s: Shot) => s.decoy as nat == k
  }

  /** What the matrices and buckets should hold: plain numbers of shots. */
  ghost predicate CountsOf(shots: seq<Shot>, m0: array2<nat>, m1: array2<nat>, d: array<nat>)
    reads m0, m1, d
  {
    && m0.Length0 == m0.Length1 == m1.Length0 == m1.Length1 == d.Length == 4
    && (forall x, y :: 0 <= x < 4 && 0 <= y < 4 ==> m0[x, y] == Count(shots, Played(x, y, true)))
    && (forall x, y :: 0 <= x < 4 && 0 <= y < 4 ==> m1[x, y] == Count(shots, Played(x, y, false)))
    && (forall k :: 0 <= k < 4 ==> d[k] == Count(shots, InState(k)))
  }

  lemma ThreeParts(a: seq<bv8>, b: seq<bv8>, c: seq<bv8>, p: nat)
    requires p < |a| + |b|
    ensures (a + b + c)[p] == if p < |a| then a[p] else b[p - |a|]
  {
  }

  lemma EarlierAngles(shots: seq<Shot>, j: nat)
    requires |shots| >= BATCHSIZE && j < 128
    ensures BobAngles(shots[..BATCHSIZE])[j] == BobAngles(shots)[j]
  {
    hide Packed;
  }

  lemma EarlierResults(shots: seq<Shot>, i: nat)
    requires |shots| >= BATCHSIZE && i < BATCHSIZE
    ensures ResultBytes(shots[..BATCHSIZE])[i] == shots[i].result
  {
  }

  lemma FirstAndRest(shots: seq<Shot>)
    requires |shots| >= BATCHSIZE
    ensures var first := shots[..BATCHSIZE];
            BobStream(shots) == BobAngles(first) + ResultBytes(first) + BobStream(shots[BATCHSIZE..])
  {
    hide BobAngles, ResultBytes;
  }

  lemma FirstBatch(shots: seq<Shot>, i: nat)
    requires |shots| >= BATCHSIZE && i < BATCHSIZE
    ensures |BobStream(shots)| >= 384
    ensures BobStream(shots)[i / 2] == BobAngles(shots)[i / 2]
    ensures BobStream(shots)[128 + i] == shots[i].result
  {
    hide BobAngles, BobStream, ResultBytes;
    var first, rest := shots[..BATCHSIZE], BobStream(shots[BATCHSIZE..]);
    FirstAndRest(shots);
    EarlierAngles(shots, i / 2);
    EarlierResults(shots, i);
    ThreeParts(BobAngles(first), ResultBytes(first), rest, i / 2);
    ThreeParts(BobAngles(first), ResultBytes(first), rest, 128 + i);
  }

  lemma NextBatches(shots: seq<Shot>, p: nat)
    requires |shots| >= BATCHSIZE && p < |BobStream(shots[BATCHSIZE..])|
    ensures 384 + p < |BobStream(shots)| && BobStream(shots)[384 + p] == BobStream(shots[BATCHSIZE..])[p]
  {
    hide BobAngles, ResultBytes, BobStream;
    FirstAndRest(shots);
  }

  lemma LaterAngles(shots: seq<Shot>, j: nat)
    requires |shots| >= BATCHSIZE && j < (|shots| - BATCHSIZE) / 2
    ensures BobAngles(shots[BATCHSIZE..])[j] == BobAngles(shots)[128 + j]
  {
    hide Packed;
  }

  lemma {:induction false} BobStreamAt(shots: seq<Shot>, batch: nat, i: nat)
    requires BATCHSIZE * batch + BATCHSIZE <= |shots| && i < BATCHSIZE
    ensures 384 * batch + 384 <= |BobStream(shots)|
    ensures BobStream(shots)[384 * batch + i / 2] == BobAngles(shots)[128 * batch + i / 2]
    ensures BobStream(shots)[384 * batch + 128 + i] == shots[BATCHSIZE * batch + i].result
  {
    hide BobStream, BobAngles;
    if batch == 0 {
      FirstBatch(shots, i);
    } else {
      var before := batch - 1;
      BobStreamAt(shots[BATCHSIZE..], before, i);
      NextBatches(shots, 384 * before + i / 2);
      NextBatches(shots, 384 * before + 128 + i);
      LaterAngles(shots, 128 * before + i / 2);
    }
  }

  /** The two bytes that hold shot k, unpacked. */
  lemma BytesOfShot(shots: seq<Shot>, k: nat)
    requires k < |shots| && |shots| % 2 == 0
    ensures var s, a, b := shots[k], AliceStream(shots)[k / 2], BobAngles(shots)[k / 2];
            AngleBits(a, k % 2) == s.alice && DecoyBits(a, k % 2) == s.decoy && AngleBits(b, k % 2) == s.bob
  {
    hide Packed, AngleBits, DecoyBits;
    var s, t := shots[2 * (k / 2)], shots[2 * (k / 2) + 1];
    UnpackPacked(s.alice, s.decoy, t.alice, t.decoy);
    UnpackPacked(s.bob, s.spare, t.bob, t.spare);
  }

  lemma WholeBatches(inp: Input, shots: seq<Shot>, k: nat)
    requires Carries(inp, shots) && k < |shots|
    ensures BATCHSIZE * (k / BATCHSIZE) + BATCHSIZE <= |shots| && |shots| % 2 == 0
    ensures Covers(inp, k + 1)
  {
  }

  lemma PlaceOfShot(k: nat)
    ensures 128 * (k / BATCHSIZE) + k % BATCHSIZE / 2 == k / 2 && k % 2 == k % BATCHSIZE % 2
  {
  }

  lemma BatchIsCarried(inp: Input, shots: seq<Shot>, batch: nat, i: nat)
    requires Carries(inp, shots) && BATCHSIZE * batch + BATCHSIZE <= |shots| && i < BATCHSIZE
    ensures 128 * batch + 128 <= |inp.angles| && 384 * batch + 384 <= |inp.bob|
    ensures inp.angles[128 * batch + i / 2] == AliceStream(shots)[128 * batch + i / 2]
    ensures inp.bob[384 * batch + i / 2] == BobAngles(shots)[128 * batch + i / 2]
    ensures inp.bob[384 * batch + 128 + i] == shots[BATCHSIZE * batch + i].result
  {
    hide BobStream, AliceStream, BobAngles;
    BobStreamAt(shots, batch, i);
  }

  lemma SampleOfShot(inp: Input, shots: seq<Shot>, k: nat)
    requires Carries(inp, shots) && k < |shots|
    ensures Covers(inp, k + 1)
    ensures var s := shots[k];
            SampleAt(inp, k) == Sample(s.alice as nat, s.bob as nat, s.decoy as nat, s.result == 0)
  {
    hide AngleBits, DecoyBits, BobStream, AliceStream, BobAngles, Carries;
    WholeBatches(inp, shots, k);
    PlaceOfShot(k);
    BatchIsCarried(inp, shots, k / BATCHSIZE, k % BATCHSIZE);
    BytesOfShot(shots, k);
  }

  /** The cells and buckets are the numbers of shots, counted in the list itself. */
  lemma {:induction false} CellsCountShots(inp: Input, shots: seq<Shot>, n: nat)
    requires Carries(inp, shots) && n <= |shots|
    ensures Covers(inp, n)
    ensures forall x, y, zero :: Cell(inp, n, x, y, zero) == Count(shots[..n], Played(x, y, zero))
    ensures forall k :: Decoys(inp, n, k) == Count(shots[..n], InState(k))
  {
    if n == 0 {
      assert shots[..0] == [];
      forall x, y, zero ensures Count([], Played(x, y, zero)) == 0 { CountNothing(Played(x, y, zero)); }
      forall k ensures Count([], InState(k)) == 0 { CountNothing(InState(k)); }
    } else {
      hide Count, SampleAt, Carries;
      CellsCountShots(inp, shots, n - 1);
      SampleOfShot(inp, shots, n - 1);
      forall x, y, zero
        ensures Cell(inp, n, x, y, zero) == Count(shots[..n], Played(x, y, zero))
      {
        NextShot(shots, n, Played(x, y, zero));
      }
      forall k ensures Decoys(inp, n, k) == Count(shots[..n], InState(k)) {
        NextShot(shots, n, InState(k));
      }
    }
  }

  lemma TalliedCounts(inp: Input, shots: seq<Shot>, m0: array2<nat>, m1: array2<nat>, d: array<nat>)
    requires Carries(inp, shots) && Covers(inp, |shots|) && Tallied(inp, |shots|, m0, m1, d)
    ensures CountsOf(shots, m0, m1, d)
  {
    hide Carries, Count;
    CellsCountShots(inp, shots, |shots|);
    assert shots[..|shots|] == shots;
  }

  lemma UnpackedComesBack(b: bv8)
    ensures Packed(AngleBits(b, 0), DecoyBits(b, 0), AngleBits(b, 1), DecoyBits(b, 1)) == b
  {
  }

  /** Shot k as the streams hold it. */
  function ShotAt(inp: Input, k: nat): Shot
    requires Covers(inp, k + 1)
  {
    var batch, i := k / BATCHSIZE, k % BATCHSIZE;
    var a, b := inp.angles[128 * batch + i / 2], inp.bob[384 * batch + i / 2];
    Shot(AngleBits(a, i % 2), DecoyBits(a, i % 2), AngleBits(b, i % 2), DecoyBits(b, i % 2),
      inp.bob[384 * batch + 128 + i])
  }

  lemma CoversLess(inp: Input, n: nat, k: nat)
    requires Covers(inp, n) && k <= n
    ensures Covers(inp, k)
  {
  }

  ghost function ShotsOf(inp: Input, batches: nat): (shots: seq<Shot>)
    requires Covers(inp, BATCHSIZE * batches)
    ensures |shots| == BATCHSIZE * batches
  {
    seq(BATCHSIZE * batches, k requires 0 <= k < BATCHSIZE * batches =>
      CoversLess(inp, BATCHSIZE * batches, k + 1); ShotAt(inp, k))
  }

  lemma ShotInBatch(inp: Input, batches: nat, batch: nat, i: nat)
    requires Covers(inp, BATCHSIZE * batches) && batch < batches && i < BATCHSIZE
    ensures 128 * batch + i / 2 < |inp.angles| && 384 * batch + 128 + i < |inp.bob|
    ensures var s, a, b := ShotsOf(inp, batches)[BATCHSIZE * batch + i],
                           inp.angles[128 * batch + i / 2], inp.bob[384 * batch + i / 2];
            s == Shot(AngleBits(a, i % 2), DecoyBits(a, i % 2), AngleBits(b, i % 2), DecoyBits(b, i % 2),
              inp.bob[384 * batch + 128 + i])
  {
    hide AngleBits, DecoyBits;
    var k := BATCHSIZE * batch + i;
    assert k / BATCHSIZE == batch && k % BATCHSIZE == i;
  }

  /** Byte j of a batch's angles, on both streams, packs the two shots it was unpacked to. */
  lemma AnglesOfBatch(inp: Input, batches: nat, batch: nat, j: nat)
    requires Covers(inp, BATCHSIZE * batches) && batch < batches && j < 128
    ensures 128 * batch + j < |inp.angles| && 384 * batch + j < |inp.bob|
    ensures AliceStream(ShotsOf(inp, batches))[128 * batch + j] == inp.angles[128 * batch + j]
    ensures BobAngles(ShotsOf(inp, batches))[128 * batch + j] == inp.bob[384 * batch + j]
  {
    hide Packed, AngleBits, DecoyBits, Covers, ShotsOf;
    ShotInBatch(inp, batches, batch, 2 * j);
    ShotInBatch(inp, batches, batch, 2 * j + 1);
    assert 2 * j / 2 == j && (2 * j + 1) / 2 == j && 2 * j % 2 == 0 && (2 * j + 1) % 2 == 1;
    UnpackedComesBack(inp.angles[128 * batch + j]);
    UnpackedComesBack(inp.bob[384 * batch + j]);
  }

  lemma BobBytesOfBatch(inp: Input, batches: nat, batch: nat, i: nat)
    requires Covers(inp, BATCHSIZE * batches) && batch < batches && i < BATCHSIZE
    ensures |BobStream(ShotsOf(inp, batches))| == 384 * batches && 384 * batch + 128 + i < |inp.bob|
    ensures BobStream(ShotsOf(inp, batches))[384 * batch + i / 2] == inp.bob[384 * batch + i / 2]
    ensures BobStream(ShotsOf(inp, batches))[384 * batch + 128 + i] == inp.bob[384 * batch + 128 + i]
  {
    hide BobStream, BobAngles, ShotsOf, AngleBits, DecoyBits, Covers;
    AnglesOfBatch(inp, batches, batch, i / 2);
    ShotInBatch(inp, batches, batch, i);
    BobStreamAt(ShotsOf(inp, batches), batch, i);
  }

  /** Whatever the streams hold is such a list, so the counts say what the tally gives for any input. */
  lemma EveryRoundIsShots(inp: Input, batches: nat)
    requires Covers(inp, BATCHSIZE * batches)
    ensures Carries(inp, ShotsOf(inp, batches))
  {
    var shots := ShotsOf(inp, batches);
    assert 128 * batches <= |inp.angles| && 384 * batches <= |inp.bob|;
    hide ShotsOf, AliceStream, BobStream, Covers;
    forall p | 0 <= p < 128 * batches
      ensures AliceStream(shots)[p] == inp.angles[p]
    {
      AnglesOfBatch(inp, batches, p / 128, p % 128);
    }
    forall p | 0 <= p < 384 * batches
      ensures BobStream(shots)[p] == inp.bob[p]
    {
      BobByte(inp, batches, p / 384, p % 384);
    }
  }

  lemma BobByte(inp: Input, batches: nat, batch: nat, q: nat)
    requires Covers(inp, BATCHSIZE * batches) && batch < batches && q < 384
    ensures |BobStream(ShotsOf(inp, batches))| == 384 * batches && 384 * batch + q < |inp.bob|
    ensures BobStream(ShotsOf(inp, batches))[384 * batch + q] == inp.bob[384 * batch + q]
  {
    hide ShotsOf, BobStream, Covers;
    if q < 128 {
      BobBytesOfBatch(inp, batches, batch, 2 * q);
      assert 2 * q / 2 == q;
    } else {
      BobBytesOfBatch(inp, batches, batch, q - 128);
      assert 384 * batch + 128 + (q - 128) == 384 * batch + q;
    }
  }

  /** A click that one side's rate counts as wrong: result 0 at angle 1, another result at angle 2,
      where the other side played angle 0. */
  function Erroneous(side: Side): Shot -> bool {
    match side
    case AliceSide => (s: Shot) => s.bob == 0 && ((s.alice == 1 && s.result == 0) || (s.alice == 2 && s.result != 0))
    case BobSide => (s: Shot) => s.alice == 0 && ((s.bob == 1 && s.result == 0) || (s.bob == 2 && s.result != 0))
  }

  function Judged(side: Side): Shot -> bool {
    match side
    case AliceSide => (s: Shot) => s.bob == 0 && (s.alice == 1 || s.alice == 2)
    case BobSide => (s: Shot) => s.alice == 0 && (s.bob == 1 || s.bob == 2)
  }

  lemma ErrorOfShot(s: Shot, side: Side)
    ensures var t := Sample(s.alice as nat, s.bob as nat, s.decoy as nat, s.result == 0);
            && (Wrong(t, side) <==> Erroneous(side)(s)) && (Compared(t, side) <==> Judged(side)(s))
  {
  }

  /** The clicks in the rates' numerators and denominators, counted in the list of shots. */
  lemma {:induction false} ErrorsCountShots(inp: Input, shots: seq<Shot>, n: nat, side: Side)
    requires Carries(inp, shots) && n <= |shots|
    ensures Covers(inp, n)
    ensures WrongClicks(inp, n, side) == Count(shots[..n], Erroneous(side))
    ensures ComparedClicks(inp, n, side) == Count(shots[..n], Judged(side))
  {
    if n == 0 {
      assert shots[..0] == [];
      CountNothing(Erroneous(side));
      CountNothing(Judged(side));
    } else {
      hide Count, SampleAt, Carries, Covers, Wrong, Compared, Erroneous, Judged;
      var s := shots[n - 1];
      ErrorsCountShots(inp, shots, n - 1, side);
      SampleOfShot(inp, shots, n - 1);
      ErrorOfShot(s, side);
      NextShot(shots, n, Erroneous(side));
      NextShot(shots, n, Judged(side));
    }
  }

  lemma NextShot(shots: seq<Shot>, n: nat, p: Shot -> bool)
    requires 0 < n <= |shots|
    ensures Count(shots[..n], p) == Count(shots[..n - 1], p) + if p(shots[n - 1]) then 1 else 0
  {
    assert shots[..n] == shots[..n - 1] + [shots[n - 1]];
    CountSnoc(shots[..n - 1], shots[n - 1], p);
  }

  // ---- the tally ----

  /** `aa_expanded`, `ab_expanded` and `da_expanded` of one batch. */
  method Expand(aa: seq<bv8>, ab: seq<bv8>)
    returns (aaExpanded: array<bv8>, abExpanded: array<bv8>, daExpanded: array<bv8>)
    requires |aa| == |ab| == BATCHSIZE / 2
    ensures fresh(aaExpanded) && fresh(abExpanded) && fresh(daExpanded)
    ensures aaExpanded.Length == abExpanded.Length == daExpanded.Length == BATCHSIZE
    ensures forall i :: 0 <= i < BATCHSIZE ==>
      aaExpanded[i] == AngleBits(aa[i / 2], i % 2) && abExpanded[i] == AngleBits(ab[i / 2], i % 2)
      && daExpanded[i] == DecoyBits(aa[i / 2], i % 2)
  {
    aaExpanded, abExpanded, daExpanded := new bv8[BATCHSIZE], new bv8[BATCHSIZE], new bv8[BATCHSIZE];
    for i := 0 to BATCHSIZE / 2
      invariant forall k :: 0 <= k < 2 * i ==>
        aaExpanded[k] == AngleBits(aa[k / 2], k % 2) && abExpanded[k] == AngleBits(ab[k / 2], k % 2)
        && daExpanded[k] == DecoyBits(aa[k / 2], k % 2)
    {
      for j := 0 to 2
        invariant forall k :: 0 <= k < 2 * i + j ==>
          aaExpanded[k] == AngleBits(aa[k / 2], k % 2) && abExpanded[k] == AngleBits(ab[k / 2], k % 2)
          && daExpanded[k] == DecoyBits(aa[k / 2], k % 2)
      {
        aaExpanded[2 * i + j] := AngleBits(aa[i], j);
        abExpanded[2 * i + j] := AngleBits(ab[i], j);
        daExpanded[2 * i + j] := DecoyBits(aa[i], j);
      }
    }
  }

  /** One click: its cell and its decoy bucket. */
  method TallyOne(s: Sample, m0: array2<nat>, m1: array2<nat>, d: array<nat>)
    requires s.alice < 4 && s.bob < 4 && s.decoy < 4 && m0 != m1
    requires m0.Length0 == m0.Length1 == m1.Length0 == m1.Length1 == d.Length == 4
    modifies m0, m1, d
    ensures forall x, y :: 0 <= x < 4 && 0 <= y < 4 ==>
      m0[x, y] == old(m0[x, y]) + if s.alice == x && s.bob == y && s.zero then 1 else 0
    ensures forall x, y :: 0 <= x < 4 && 0 <= y < 4 ==>
      m1[x, y] == old(m1[x, y]) + if s.alice == x && s.bob == y && !s.zero then 1 else 0
    ensures forall k :: 0 <= k < 4 ==> d[k] == old(d[k]) + if s.decoy == k then 1 else 0
  {
    if s.zero {
      m0[s.alice, s.bob] := m0[s.alice, s.bob] + 1;
    } else {
      m1[s.alice, s.bob] := m1[s.alice, s.bob] + 1;
    }
    for j := 0 to 4
      modifies d
      invariant forall k :: 0 <= k < 4 ==> d[k] == old(d[k]) + if s.decoy == k && k < j then 1 else 0
    {
      if s.decoy == j {
        d[j] := d[j] + 1;
      }
    }
  }

  /** One batch. */
  method TallyBatch(inp: Input, batch: nat, m0: array2<nat>, m1: array2<nat>, d: array<nat>)
    requires Covers(inp, BATCHSIZE * (batch + 1)) && m0 != m1
    requires Tallied(inp, BATCHSIZE * batch, m0, m1, d)
    modifies m0, m1, d
    ensures Tallied(inp, BATCHSIZE * (batch + 1), m0, m1, d)
  {
    BatchIsThere(inp, batch);
    hide Tallied, Covers, AngleBits, DecoyBits;
    var aa := inp.angles[128 * batch..128 * batch + 128];
    var ab := inp.bob[384 * batch..384 * batch + 128];
    var r := inp.bob[384 * batch + 128..384 * batch + 384];
    var aaExpanded, abExpanded, daExpanded := Expand(aa, ab);
    var xs, ys, ds := aaExpanded[..], abExpanded[..], daExpanded[..];
    forall i | 0 <= i < BATCHSIZE
      ensures SampleIn(xs, ys, ds, r, i) == BatchSample(inp, batch, i)
    {
      assert aa[i / 2] == inp.angles[128 * batch + i / 2] && ab[i / 2] == inp.bob[384 * batch + i / 2];
    }
    TallySamples(inp, batch, xs, ys, ds, r, m0, m1, d);
  }

  function SampleIn(xs: seq<bv8>, ys: seq<bv8>, ds: seq<bv8>, r: seq<bv8>, i: nat): Sample
    requires |xs| == |ys| == |ds| == |r| == BATCHSIZE && i < BATCHSIZE
  {
    Sample(xs[i] as nat, ys[i] as nat, ds[i] as nat, r[i] == 0)
  }

  /** The counting loop of a batch. */
  method TallySamples(inp: Input, batch: nat, xs: seq<bv8>, ys: seq<bv8>, ds: seq<bv8>, r: seq<bv8>,
    m0: array2<nat>, m1: array2<nat>, d: array<nat>)
    requires Covers(inp, BATCHSIZE * (batch + 1)) && m0 != m1
    requires Covers(inp, BATCHSIZE * batch) && Tallied(inp, BATCHSIZE * batch, m0, m1, d)
    requires 128 * batch + 128 <= |inp.angles| && 384 * batch + 384 <= |inp.bob|
    requires |xs| == |ys| == |ds| == |r| == BATCHSIZE
    requires forall i :: 0 <= i < BATCHSIZE ==> SampleIn(xs, ys, ds, r, i) == BatchSample(inp, batch, i)
    modifies m0, m1, d
    ensures Tallied(inp, BATCHSIZE * (batch + 1), m0, m1, d)
  {
    hide Tallied, Covers, BatchSample, SampleAt;
    for i := 0 to BATCHSIZE
      modifies m0, m1, d
      invariant Covers(inp, BATCHSIZE * batch + i) && Tallied(inp, BATCHSIZE * batch + i, m0, m1, d)
    {
      SampleOfBatch(inp, batch, i);
      TallyNext(inp, BATCHSIZE * batch + i, SampleIn(xs, ys, ds, r, i), m0, m1, d);
    }
  }

  lemma BatchIsThere(inp: Input, batch: nat)
    requires Covers(inp, BATCHSIZE * (batch + 1))
    ensures 128 * batch + 128 <= |inp.angles| && 384 * batch + 384 <= |inp.bob|
    ensures Covers(inp, BATCHSIZE * batch)
  {
  }

  lemma SampleOfBatch(inp: Input, batch: nat, i: nat)
    requires Covers(inp, BATCHSIZE * (batch + 1)) && i < BATCHSIZE
    requires 128 * batch + 128 <= |inp.angles| && 384 * batch + 384 <= |inp.bob|
    ensures Covers(inp, BATCHSIZE * batch + i + 1)
    ensures SampleAt(inp, BATCHSIZE * batch + i) == BatchSample(inp, batch, i)
  {
    var n := BATCHSIZE * batch + i;
    assert n / BATCHSIZE == batch && n % BATCHSIZE == i;
  }

  method TallyNext(inp: Input, n: nat, s: Sample, m0: array2<nat>, m1: array2<nat>, d: array<nat>)
    requires Covers(inp, n) && Covers(inp, n + 1) && m0 != m1
    requires s == SampleAt(inp, n) && Tallied(inp, n, m0, m1, d)
    modifies m0, m1, d
    ensures Tallied(inp, n + 1, m0, m1, d)
  {
    hide SampleAt;
    TallyOne(s, m0, m1, d);
  }

  lemma NothingTallied(inp: Input, m0: array2<nat>, m1: array2<nat>, d: array<nat>)
    requires m0.Length0 == m0.Length1 == m1.Length0 == m1.Length1 == d.Length == 4
    requires forall x, y :: 0 <= x < 4 && 0 <= y < 4 ==> m0[x, y] == m1[x, y] == 0
    requires forall k :: 0 <= k < 4 ==> d[k] == 0
    ensures Covers(inp, 0) && Tallied(inp, 0, m0, m1, d)
  {
  }

  /** One round; not ok when a stream ends early. */
  method RecvAngles(inp: Input, num: nat) returns (ok: bool, m0: array2<nat>, m1: array2<nat>, d: array<nat>)
    requires num < U32_RANGE
    ensures ok <==> Covers(inp, num / BATCHSIZE * BATCHSIZE)
    ensures ok ==> Tallied(inp, num / BATCHSIZE * BATCHSIZE, m0, m1, d)
    ensures ok ==> forall shots :: Carries(inp, shots) && |shots| == num / BATCHSIZE * BATCHSIZE ==>
      CountsOf(shots, m0, m1, d)
  {
    hide Tallied, CountsOf, Carries, Covers;
    m0, m1, d := new nat[4, 4]((_, _) => 0), new nat[4, 4]((_, _) => 0), new nat[4](_ => 0);
    NothingTallied(inp, m0, m1, d);
    ok := TallyBatches(inp, num / BATCHSIZE, m0, m1, d);
    if ok {
      forall shots | Carries(inp, shots) && |shots| == num / BATCHSIZE * BATCHSIZE
        ensures CountsOf(shots, m0, m1, d)
      {
        TalliedCounts(inp, shots, m0, m1, d);
      }
    }
  }

  /** The loop over the batches, on cleared matrices. */
  method TallyBatches(inp: Input, batches: nat, m0: array2<nat>, m1: array2<nat>, d: array<nat>) returns (ok: bool)
    requires m0 != m1 && Covers(inp, 0) && Tallied(inp, 0, m0, m1, d)
    modifies m0, m1, d
    ensures ok <==> Covers(inp, batches * BATCHSIZE)
    ensures ok ==> Tallied(inp, batches * BATCHSIZE, m0, m1, d)
  {
    hide Tallied;
    for batch := 0 to batches
      modifies m0, m1, d
      invariant Covers(inp, BATCHSIZE * batch) && Tallied(inp, BATCHSIZE * batch, m0, m1, d)
    {
      if !Covers(inp, BATCHSIZE * (batch + 1)) {
        return false;
      }
      TallyBatch(inp, batch, m0, m1, d);
    }
    return true;
  }

  // ---- conservation ----

  /** The cells in the order of (alice, bob, result). */
  function CellsUpTo(inp: Input, n: nat, k: nat): nat
    requires Covers(inp, n)
  {
    if k == 0 then 0
    else CellsUpTo(inp, n, k - 1) + Cell(inp, n, (k - 1) / 8, (k - 1) / 2 % 4, (k - 1) % 2 == 0)
  }

  function DecoysUpTo(inp: Input, n: nat, k: nat): nat
    requires Covers(inp, n)
  {
    if k == 0 then 0 else DecoysUpTo(inp, n, k - 1) + Decoys(inp, n, k - 1)
  }

  function CellNumber(s: Sample): nat {
    8 * s.alice + 2 * s.bob + if s.zero then 0 else 1
  }

  lemma CellNumberMatches(s: Sample, k: nat)
    requires s.alice < 4 && s.bob < 4 && k < 32
    ensures CellNumber(s) == k <==> s.alice == k / 8 && s.bob == k / 2 % 4 && s.zero == (k % 2 == 0)
  {
  }

  lemma {:induction false} OneMoreClick(inp: Input, n: nat, k: nat)
    requires Covers(inp, n) && n > 0 && k <= 32
    ensures CellsUpTo(inp, n, k)
         == CellsUpTo(inp, n - 1, k) + if CellNumber(SampleAt(inp, n - 1)) < k then 1 else 0
  {
    hide SampleAt, CellNumber, Covers;
    if k == 0 {
    } else {
      OneMoreClick(inp, n, k - 1);
      CellNumberMatches(SampleAt(inp, n - 1), k - 1);
    }
  }

  lemma {:induction false} OneMoreDecoy(inp: Input, n: nat, k: nat)
    requires Covers(inp, n) && n > 0
    ensures DecoysUpTo(inp, n, k) == DecoysUpTo(inp, n - 1, k) + if SampleAt(inp, n - 1).decoy < k then 1 else 0
  {
    if k == 0 {
    } else {
      OneMoreDecoy(inp, n, k - 1);
    }
  }

  lemma {:induction false} NothingYet(inp: Input, k: nat)
    requires Covers(inp, 0)
    ensures CellsUpTo(inp, 0, k) == 0 && DecoysUpTo(inp, 0, k) == 0
  {
    if k == 0 {
    } else {
      NothingYet(inp, k - 1);
    }
  }

  /** No click is lost or counted twice. */
  lemma {:induction false} ClicksAreConserved(inp: Input, n: nat)
    requires Covers(inp, n)
    ensures CellsUpTo(inp, n, 32) == n && DecoysUpTo(inp, n, 4) == n
  {
    if n == 0 {
      NothingYet(inp, 32);
      NothingYet(inp, 4);
    } else {
      ClicksAreConserved(inp, n - 1);
      OneMoreClick(inp, n, 32);
      OneMoreDecoy(inp, n, 4);
    }
  }

  // ---- error rates ----

  /** The rate of Alice's angles is taken where Bob played angle 0, and the other way round. */
  datatype Side = AliceSide | BobSide

  /** The angle that is tried against the other side's angle 0. */
  function Tried(s: Sample, side: Side): nat {
    if side.AliceSide? then s.alice else s.bob
  }

  predicate Compared(s: Sample, side: Side) {
    (if side.AliceSide? then s.bob else s.alice) == 0 && (Tried(s, side) == 1 || Tried(s, side) == 2)
  }

  /** Angle 1 should not give result 0 and angle 2 should give nothing else. */
  predicate Wrong(s: Sample, side: Side) {
    Compared(s, side) && (s.zero <==> Tried(s, side) == 1)
  }

  function ComparedClicks(inp: Input, n: nat, side: Side): nat
    requires Covers(inp, n)
  {
    if n == 0 then 0 else ComparedClicks(inp, n - 1, side) + if Compared(SampleAt(inp, n - 1), side) then 1 else 0
  }

  function WrongClicks(inp: Input, n: nat, side: Side): nat
    requires Covers(inp, n)
  {
    if n == 0 then 0 else WrongClicks(inp, n - 1, side) + if Wrong(SampleAt(inp, n - 1), side) then 1 else 0
  }

  /** The cells in the rates' numerators and denominators are exactly the wrong and the compared
      clicks, so no sum exceeds the number of clicks and none overflows. */
  lemma {:induction false} CellsAreTheErrors(inp: Input, n: nat)
    requires Covers(inp, n)
    ensures Cell(inp, n, 1, 0, true) + Cell(inp, n, 2, 0, false) == WrongClicks(inp, n, AliceSide)
    ensures Cell(inp, n, 0, 1, true) + Cell(inp, n, 0, 2, false) == WrongClicks(inp, n, BobSide)
    ensures Cell(inp, n, 1, 0, true) + Cell(inp, n, 1, 0, false) + Cell(inp, n, 2, 0, true) + Cell(inp, n, 2, 0, false)
         == ComparedClicks(inp, n, AliceSide)
    ensures Cell(inp, n, 0, 1, true) + Cell(inp, n, 0, 1, false) + Cell(inp, n, 0, 2, true) + Cell(inp, n, 0, 2, false)
         == ComparedClicks(inp, n, BobSide)
  {
    hide SampleAt;
    if n == 0 {
    } else {
      CellsAreTheErrors(inp, n - 1);
    }
  }

  lemma {:induction false} ErrorsAreBounded(inp: Input, n: nat)
    requires Covers(inp, n)
    ensures forall side :: WrongClicks(inp, n, side) <= ComparedClicks(inp, n, side)
    ensures ComparedClicks(inp, n, AliceSide) + ComparedClicks(inp, n, BobSide) <= n
  {
    hide SampleAt;
    if n == 0 {
    } else {
      ErrorsAreBounded(inp, n - 1);
    }
  }

  /** A floating-point quotient of two counters; None is the NaN of 0 / 0. */
  function Rate(wrong: nat, all: nat): Option<real> {
    if all == 0 then None else Some(wrong as real / all as real)
  }

  lemma RateIsAFraction(wrong: nat, all: nat)
    requires wrong <= all && all > 0
    ensures Rate(wrong, all).Some? && 0.0 <= Rate(wrong, all).value <= 1.0
    ensures Rate(wrong, all).value * all as real == wrong as real
  {
  }

  /** The rate over both kinds of clicks lies between the rates of each. */
  lemma RateIsBetween(wrong: nat, all: nat, wrong': nat, all': nat)
    requires wrong <= all && wrong' <= all' && all > 0 && all' > 0
    requires Rate(wrong, all).value <= Rate(wrong', all').value
    ensures Rate(wrong, all).value <= Rate(wrong + wrong', all + all').value <= Rate(wrong', all').value
  {
    RateIsAFraction(wrong, all);
    RateIsAFraction(wrong', all');
    RateIsAFraction(wrong + wrong', all + all');
    hide Rate;
    Between(Rate(wrong, all).value, all as real, Rate(wrong', all').value, all' as real,
      Rate(wrong + wrong', all + all').value);
  }

  lemma Between(q: real, w: real, q': real, w': real, m: real)
    requires w > 0.0 && w' > 0.0 && q <= q' && m * (w + w') == q * w + q' * w'
    ensures q <= m <= q'
  {
    assert (m - q) * (w + w') == (q' - q) * w';
    assert (q' - m) * (w + w') == (q' - q) * w;
  }

  /** The three rates of a round, from the matrices alone. */
  method Qber(m0: array2<nat>, m1: array2<nat>, d: array<nat>, ghost inp: Input, ghost n: nat)
    returns (alice: Option<real>, bob: Option<real>, qber: Option<real>)
    requires Covers(inp, n) && Tallied(inp, n, m0, m1, d)
    ensures alice == Rate(WrongClicks(inp, n, AliceSide), ComparedClicks(inp, n, AliceSide))
    ensures bob == Rate(WrongClicks(inp, n, BobSide), ComparedClicks(inp, n, BobSide))
    ensures qber == Rate(WrongClicks(inp, n, AliceSide) + WrongClicks(inp, n, BobSide),
      ComparedClicks(inp, n, AliceSide) + ComparedClicks(inp, n, BobSide))
    ensures qber.Some? ==> 0.0 <= qber.value <= 1.0
    ensures alice.Some? ==> 0.0 <= alice.value <= 1.0
    ensures bob.Some? ==> 0.0 <= bob.value <= 1.0
    ensures alice.Some? && bob.Some? ==>
      qber.Some? && (alice.value <= qber.value <= bob.value || bob.value <= qber.value <= alice.value)
  {
    ErrorsAreBounded(inp, n);
    hide Covers, Tallied, ComparedClicks, WrongClicks, Rate;
    var aliceWrong, aliceAll, bobWrong, bobAll := Sums(m0, m1, d, inp, n);
    alice := Rate(aliceWrong, aliceAll);
    bob := Rate(bobWrong, bobAll);
    qber := Rate(aliceWrong + bobWrong, aliceAll + bobAll);
    RatesOfRound(aliceWrong, aliceAll, bobWrong, bobAll);
  }

  /** The numerators and denominators. */
  method Sums(m0: array2<nat>, m1: array2<nat>, d: array<nat>, ghost inp: Input, ghost n: nat)
    returns (aliceWrong: nat, aliceAll: nat, bobWrong: nat, bobAll: nat)
    requires Covers(inp, n) && Tallied(inp, n, m0, m1, d)
    ensures aliceWrong == WrongClicks(inp, n, AliceSide) && aliceAll == ComparedClicks(inp, n, AliceSide)
    ensures bobWrong == WrongClicks(inp, n, BobSide) && bobAll == ComparedClicks(inp, n, BobSide)
  {
    CellsAreTheErrors(inp, n);
    hide Covers, Cell, ComparedClicks, WrongClicks;
    aliceWrong, bobWrong := m0[1, 0] + m1[2, 0], m0[0, 1] + m1[0, 2];
    aliceAll := m0[1, 0] + m1[1, 0] + m0[2, 0] + m1[2, 0];
    bobAll := m0[0, 1] + m1[0, 1] + m0[0, 2] + m1[0, 2];
  }

  lemma RatesOfRound(wrong: nat, all: nat, wrong': nat, all': nat)
    requires wrong <= all && wrong' <= all'
    ensures all > 0 ==> 0.0 <= Rate(wrong, all).value <= 1.0
    ensures all' > 0 ==> 0.0 <= Rate(wrong', all').value <= 1.0
    ensures all + all' > 0 ==> 0.0 <= Rate(wrong + wrong', all + all').value <= 1.0
    ensures all > 0 && all' > 0 ==>
      var q, a, b := Rate(wrong + wrong', all + all').value, Rate(wrong, all).value, Rate(wrong', all').value;
      a <= q <= b || b <= q <= a
  {
    hide Rate;
    if all > 0 { RateIsAFraction(wrong, all); }
    if all' > 0 { RateIsAFraction(wrong', all'); }
    if all + all' > 0 { RateIsAFraction(wrong + wrong', all + all'); }
    if all > 0 && all' > 0 {
      if Rate(wrong, all).value <= Rate(wrong', all').value {
        RateIsBetween(wrong, all, wrong', all');
      } else {
        RateIsBetween(wrong', all', wrong, all);
      }
    }
  }
}
