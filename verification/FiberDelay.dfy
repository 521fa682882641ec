/** Finding the fibre delay in two stages: remote/lib/gen_seq.py:219-246, remote/ctl_bob.py:651-724
    and the stored parameters of remote/hws_alice.py:1136-1171. */
module FiberDelay {
  import opened Bytes
  import opened Counting

  /** The length of Alice's angle sequence, in qubits. */
  const TOTAL: nat := 32000
  const PERIOD: nat := 80
  const BLOCKS: nat := 400
  const NUM_WORDS: nat := 2000

  // ---- the test sequences ----

  /** Which slot of its word an angle sits in: neighbours are swapped. */
  function Inverted(slot: nat): nat {
    if slot % 2 == 0 then slot + 1 else slot - 1
  }

  /** Slot s of a word: (word >> 2s) & 3. */
  function Slot(word: nat, s: nat): nat {
    Shift(word, 2 * s) % 4
  }

  /** The angle the phase modulator plays at position p. */
  function AngleAt(message: seq<nat>, p: nat): nat
    requires p < 16 * |message|
  {
    Slot(message[p / 16], Inverted(p % 16))
  }

  lemma NextSlot(word: nat, s: nat)
    requires s > 0
    ensures Slot(word, s) == Slot(word / 4, s - 1)
  {
    assert Shift(word, 2 * s) == Shift(word / 2, 2 * s - 1) == Shift(word / 2 / 2, 2 * s - 2);
    assert word / 2 / 2 == word / 4;
  }

  lemma {:induction false} ZeroWord(s: nat)
    ensures Slot(0, s) == 0
  {
    if s == 0 {
    } else {
      NextSlot(0, s);
      ZeroWord(s - 1);
    }
  }

  /** 1 << 2k holds the angle 1 in slot k alone. */
  lemma {:induction false} OneBit(k: nat, s: nat)
    ensures Slot(Scaled(1, 2 * k), s) == if s == k then 1 else 0
  {
    if k > 0 {
      assert Scaled(1, 2 * k) == 2 * Scaled(1, 2 * k - 1) == 4 * Scaled(1, 2 * (k - 1));
    }
    if s > 0 {
      NextSlot(Scaled(1, 2 * k), s);
      if k > 0 {
        OneBit(k - 1, s - 1);
      } else {
        ZeroWord(s - 1);
      }
    }
  }

  const ALL_ONE: nat := 0x5555_5555

  /** A word whose lowest n slots hold the angle 1. */
  function Ones(n: nat): nat {
    if n == 0 then 0 else 1 + 4 * Ones(n - 1)
  }

  lemma {:induction false} OnesSlot(n: nat, s: nat)
    requires s < n
    ensures Slot(Ones(n), s) == 1
  {
    if s == 0 {
    } else {
      NextSlot(Ones(n), s);
      OnesSlot(n - 1, s - 1);
    }
  }

  lemma AllOneIsOnes()
    ensures ALL_ONE == Ones(16)
  {
    assert Ones(4) == 0x55;
    assert Ones(8) == 0x5555;
    assert Ones(12) == 0x55_5555;
  }

  /** `seq_rng_single`: one angle in every eighty is 1. A word has room for positions 0 to 15. */
  method SeqRngSingle(pos: nat) returns (message: array<nat>)
    requires pos < 16
    ensures fresh(message) && message.Length == NUM_WORDS
    ensures forall p :: 0 <= p < TOTAL ==> AngleAt(message[..], p) == if p % PERIOD == pos then 1 else 0
  {
    var posInversed := pos / 2 * 2 + (pos + 1) % 2;
    var word := Scaled(1, 2 * posInversed);
    message := new nat[NUM_WORDS](_ => 0);
    for i := 0 to NUM_WORDS / 5
      invariant forall w :: 0 <= w < 5 * i ==> message[w] == if w % 5 == 0 then word else 0
      invariant forall w :: 5 * i <= w < NUM_WORDS ==> message[w] == 0
    {
      message[i * 5] := word;
      assert forall w :: 5 * i < w < 5 * i + 5 ==> w % 5 != 0;
    }
    forall p | 0 <= p < TOTAL
      ensures AngleAt(message[..], p) == if p % PERIOD == pos then 1 else 0
    {
      SingleWord(posInversed, pos, p);
    }
  }

  lemma SingleWord(posInversed: nat, pos: nat, p: nat)
    requires pos < 16 && posInversed == pos / 2 * 2 + (pos + 1) % 2
    ensures Slot(if p / 16 % 5 == 0 then Scaled(1, 2 * posInversed) else 0, Inverted(p % 16))
         == if p % PERIOD == pos then 1 else 0
  {
    WordsOfAPeriod(p);
    SwappedSlot(p % 16, pos);
    hide Inverted, Slot, Scaled;
    OneBit(posInversed, Inverted(p % 16));
    ZeroWord(Inverted(p % 16));
  }

  lemma WordsOfAPeriod(p: nat)
    ensures p % PERIOD == 16 * (p / 16 % 5) + p % 16
  {
    RemainderIsUnique(p, PERIOD, p / 16 / 5, 16 * (p / 16 % 5) + p % 16);
  }

  lemma SwappedSlot(slot: nat, pos: nat)
    ensures Inverted(slot) == pos / 2 * 2 + (pos + 1) % 2 <==> slot == pos
  {
  }

  /** `seq_rng_block1`: the first eighty angles are 1. */
  method SeqRngBlock1() returns (message: array<nat>)
    ensures fresh(message) && message.Length == NUM_WORDS
    ensures forall p :: 0 <= p < TOTAL ==> AngleAt(message[..], p) == if p < PERIOD then 1 else 0
  {
    message := new nat[NUM_WORDS](_ => 0);
    for i := 0 to 5
      invariant forall w :: 0 <= w < NUM_WORDS ==> message[w] == if w < i then ALL_ONE else 0
    {
      message[i] := ALL_ONE;
    }
    forall p | 0 <= p < TOTAL
      ensures AngleAt(message[..], p) == if p < PERIOD then 1 else 0
    {
      BlockWord(p);
    }
  }

  lemma BlockWord(p: nat)
    ensures Slot(if p / 16 < 5 then ALL_ONE else 0, Inverted(p % 16)) == if p < PERIOD then 1 else 0
  {
    AllOneIsOnes();
    assert p / 16 < 5 <==> p < PERIOD;
    hide Slot, Ones;
    OnesSlot(16, Inverted(p % 16));
    ZeroWord(Inverted(p % 16));
  }

  // ---- clicks and histograms ----

  /** A row of the time-tag file: counter, result and which half of the counter's two qubits. */
  datatype Click = Click(gc: nat, result: nat, qPos: int)

  function Position(c: Click): int {
    (2 * c.gc + c.qPos) % TOTAL
  }

  function InBin(result: nat, bin: Click -> int, b: int): Click -> bool {
    (c: Click) => c.result == result && bin(c) == b
  }

  /** How many clicks of one result fall into one bin. */
  ghost function Hits(clicks: seq<Click>, result: nat, bin: Click -> int, b: int): nat {
    Count(clicks, InBin(result, bin, b))
  }

  /** The difference of the two histograms. */
  ghost function Net(clicks: seq<Click>, bin: Click -> int, b: int): int {
    Hits(clicks, 0, bin, b) - Hits(clicks, 1, bin, b)
  }

  /** What one click adds to it. */
  function Weight(c: Click): int {
    if c.result == 0 then 1 else if c.result == 1 then -1 else 0
  }

  lemma LastClickAdds(clicks: seq<Click>, bin: Click -> int, b: int)
    requires clicks != []
    ensures var rest, c := clicks[..|clicks| - 1], clicks[|clicks| - 1];
            Net(clicks, bin, b) == Net(rest, bin, b) + if bin(c) == b then Weight(c) else 0
  {
    var rest, c := clicks[..|clicks| - 1], clicks[|clicks| - 1];
    assert clicks == rest + [c];
    CountSnoc(rest, c, InBin(0, bin, b));
    CountSnoc(rest, c, InBin(1, bin, b));
  }

  lemma NoClicks(bin: Click -> int, b: int)
    ensures Net([], bin, b) == 0
  {
    CountNothing(InBin(0, bin, b));
    CountNothing(InBin(1, bin, b));
  }

  lemma NetsOfBins(clicks: seq<Click>, bin: Click -> int, bins: nat)
    ensures seq(bins, b => Hits(clicks, 0, bin, b) - Hits(clicks, 1, bin, b)) == seq(bins, b => Net(clicks, bin, b))
  {
  }

  /** The same for one qubit position. */
  ghost function NetAt(clicks: seq<Click>, q: int): int {
    Net(clicks, Position, q)
  }

  function ShortBin(c: Click): int {
    (2 * c.gc + c.qPos) % PERIOD
  }

  function LongBin(fiberDelayMod: int): Click -> int {
    (c: Click) => (2 * c.gc + c.qPos - fiberDelayMod) % TOTAL / PERIOD
  }

  /** `np.histogram` of the clicks with one result. */
  method Histogram(clicks: seq<Click>, result: nat, bin: Click -> int, bins: nat) returns (h: array<int>)
    requires forall c :: c in clicks ==> 0 <= bin(c) < bins
    ensures fresh(h) && h.Length == bins
    ensures forall b :: 0 <= b < bins ==> h[b] == Hits(clicks, result, bin, b)
  {
    hide Count;
    h := new int[bins](_ => 0);
    forall b | 0 <= b < bins ensures Hits([], result, bin, b) == 0 {
      CountNothing(InBin(result, bin, b));
    }
    for i := 0 to |clicks|
      invariant forall b :: 0 <= b < bins ==> h[b] == Hits(clicks[..i], result, bin, b)
    {
      var c := clicks[i];
      assert c in clicks && clicks[..i + 1] == clicks[..i] + [c];
      forall b | 0 <= b < bins
        ensures Hits(clicks[..i + 1], result, bin, b)
             == Hits(clicks[..i], result, bin, b) + if InBin(result, bin, b)(c) then 1 else 0
      {
        CountSnoc(clicks[..i], c, InBin(result, bin, b));
      }
      if c.result == result {
        h[bin(c)] := h[bin(c)] + 1;
      }
    }
    assert clicks[..|clicks|] == clicks;
  }

  /** `h0-h1`. */
  method DifferenceOf(clicks: seq<Click>, bin: Click -> int, bins: nat) returns (h: seq<int>)
    requires forall c :: c in clicks ==> 0 <= bin(c) < bins
    ensures h == seq(bins, b => Hits(clicks, 0, bin, b) - Hits(clicks, 1, bin, b))
  {
    var h0 := Histogram(clicks, 0, bin, bins);
    var h1 := Histogram(clicks, 1, bin, bins);
    var left, right := h0[..], h1[..];
    h := seq(bins, b requires 0 <= b < bins => left[b] - right[b]);
  }

  function Sum(h: seq<int>): int {
    if h == [] then 0 else Sum(h[..|h| - 1]) + h[|h| - 1]
  }

  /** |h[i] - mean|, times the number of bins. */
  function Deviation(h: seq<int>, i: nat): nat
    requires i < |h|
  {
    var d := |h| * h[i] - Sum(h);
    if d < 0 then -d else d
  }

  ghost predicate IsFirstMax(h: seq<int>, index: nat) {
    && index < |h|
    && (forall j :: 0 <= j < |h| ==> Deviation(h, j) <= Deviation(h, index))
    && (forall j :: 0 <= j < index ==> Deviation(h, j) < Deviation(h, index))
  }

  /** `np.argmax(np.abs(h - h.mean()))`. */
  method ArgMaxDeviation(h: seq<int>) returns (index: nat)
    requires h != []
    ensures IsFirstMax(h, index)
  {
    index := 0;
    for i := 1 to |h|
      invariant index < i
      invariant forall j :: 0 <= j < i ==> Deviation(h, j) <= Deviation(h, index)
      invariant forall j :: 0 <= j < index ==> Deviation(h, j) < Deviation(h, index)
    {
      if Deviation(h, i) > Deviation(h, index) {
        index := i;
      }
    }
  }

  /** `Find_Opt_Delay_A`. */
  method FindOptDelayA(clicks: seq<Click>) returns (index: nat)
    ensures index < PERIOD
    ensures IsFirstMax(seq(PERIOD, b => Hits(clicks, 0, ShortBin, b) - Hits(clicks, 1, ShortBin, b)), index)
  {
    var h := DifferenceOf(clicks, ShortBin, PERIOD);
    index := ArgMaxDeviation(h);
  }

  /** `Find_Opt_Delay_A_long`. */
  method FindOptDelayALong(clicks: seq<Click>, fiberDelayMod: int) returns (index: nat)
    ensures index < BLOCKS
    ensures var bin := LongBin(fiberDelayMod);
            IsFirstMax(seq(BLOCKS, b => Hits(clicks, 0, bin, b) - Hits(clicks, 1, bin, b)), index)
  {
    var h := DifferenceOf(clicks, LongBin(fiberDelayMod), BLOCKS);
    index := ArgMaxDeviation(h);
  }

  // ---- bins as sums over qubit positions ----

  ghost function SumAt(clicks: seq<Click>, place: nat -> int, n: nat): int {
    if n == 0 then 0 else SumAt(clicks, place, n - 1) + NetAt(clicks, place(n - 1))
  }

  /** place lists the n positions of bin b once each; rank finds a position in the list. */
  ghost predicate Enumerates(bin: int -> int, b: int, place: nat -> int, rank: int -> int, n: nat) {
    && (forall k: nat :: k < n ==> bin(place(k)) == b && rank(place(k)) == k)
    && (forall q :: 0 <= q < TOTAL && bin(q) == b ==> 0 <= rank(q) < n && place(rank(q)) == q)
  }

  lemma {:induction false} LastClickCountsOnce(
    clicks: seq<Click>, bin: int -> int, b: int, place: nat -> int, rank: int -> int, n: nat, m: nat)
    requires clicks != [] && Enumerates(bin, b, place, rank, n) && m <= n
    ensures var c := clicks[|clicks| - 1];
            SumAt(clicks, place, m) == SumAt(clicks[..|clicks| - 1], place, m)
              + if bin(Position(c)) == b && rank(Position(c)) < m then Weight(c) else 0
  {
    hide Net;
    var q := Position(clicks[|clicks| - 1]);
    if m > 0 {
      LastClickAdds(clicks, Position, place(m - 1));
      LastClickCountsOnce(clicks, bin, b, place, rank, n, m - 1);
      assert bin(place(m - 1)) == b && rank(place(m - 1)) == m - 1;
    } else {
      assert bin(q) == b ==> 0 <= rank(q);
    }
  }

  lemma {:induction false} BinIsSum(
    clicks: seq<Click>, clickBin: Click -> int, bin: int -> int, b: int, place: nat -> int, rank: int -> int, n: nat)
    requires forall c :: clickBin(c) == bin(Position(c))
    requires Enumerates(bin, b, place, rank, n)
    ensures Net(clicks, clickBin, b) == SumAt(clicks, place, n)
  {
    if clicks == [] {
      NoClicks(clickBin, b);
      SumOfNothing(place, n);
    } else {
      BinIsSum(clicks[..|clicks| - 1], clickBin, bin, b, place, rank, n);
      LastClickCountsOnce(clicks, bin, b, place, rank, n, n);
      LastClickAdds(clicks, clickBin, b);
      var q := Position(clicks[|clicks| - 1]);
      assert bin(q) == b ==> rank(q) < n;
    }
  }

  lemma {:induction false} SumOfNothing(place: nat -> int, n: nat)
    ensures SumAt([], place, n) == 0
  {
    if n == 0 {
    } else {
      NoClicks(Position, place(n - 1));
      SumOfNothing(place, n - 1);
    }
  }

  // ---- clicks and noise ----

  /** Without noise, how strongly the results at a qubit differ depends only on the angle Alice played
      for it, which is the one `delay` qubits earlier in her sequence. */
  ghost function Expected(message: seq<nat>, delay: nat, contrast: nat -> int, q: int): int
    requires |message| == NUM_WORDS
  {
    contrast(AngleAt(message, (q - delay) % TOTAL))
  }

  /** By how much the clicks at n positions together depart from that. */
  ghost function Excess(
    clicks: seq<Click>, message: seq<nat>, delay: nat, contrast: nat -> int, place: nat -> int, n: nat): int
    requires |message| == NUM_WORDS
  {
    if n == 0 then 0
    else
      Excess(clicks, message, delay, contrast, place, n - 1)
      + NetAt(clicks, place(n - 1)) - Expected(message, delay, contrast, place(n - 1))
  }

  predicate Within(x: int, e: nat) {
    x <= e && -x <= e
  }

  /** No bin of the short histogram is off by more than e, whatever its 400 positions do. */
  ghost predicate ShortNoise(clicks: seq<Click>, message: seq<nat>, delay: nat, contrast: nat -> int, e: nat)
    requires |message| == NUM_WORDS
  {
    forall j :: 0 <= j < PERIOD ==> Within(Excess(clicks, message, delay, contrast, ShortPlace(j), BLOCKS), e)
  }

  /** No block of the long histogram is off by more than e, whatever its 80 positions do. */
  ghost predicate LongNoise(clicks: seq<Click>, message: seq<nat>, delay: nat, contrast: nat -> int, e: nat)
    requires |message| == NUM_WORDS
  {
    forall b :: 0 <= b < BLOCKS ==>
      Within(Excess(clicks, message, delay, contrast, LongPlace(delay % PERIOD, b), PERIOD), e)
  }

  ghost predicate NoiseFree(clicks: seq<Click>, message: seq<nat>, delay: nat, contrast: nat -> int)
    requires |message| == NUM_WORDS
  {
    forall q :: 0 <= q < TOTAL ==> NetAt(clicks, q) == Expected(message, delay, contrast, q)
  }

  lemma {:induction false} NoExcess(
    clicks: seq<Click>, message: seq<nat>, delay: nat, contrast: nat -> int, place: nat -> int, n: nat)
    requires |message| == NUM_WORDS && NoiseFree(clicks, message, delay, contrast)
    requires forall k: nat :: k < n ==> 0 <= place(k) < TOTAL
    ensures Excess(clicks, message, delay, contrast, place, n) == 0
  {
    hide NetAt, Expected;
    if n == 0 {
    } else {
      NoExcess(clicks, message, delay, contrast, place, n - 1);
    }
  }

  /** Noise-free clicks are within any noise. */
  lemma NoiseFreeIsWithinAnyNoise(clicks: seq<Click>, message: seq<nat>, delay: nat, contrast: nat -> int)
    requires |message| == NUM_WORDS && NoiseFree(clicks, message, delay, contrast)
    ensures ShortNoise(clicks, message, delay, contrast, 0) && LongNoise(clicks, message, delay, contrast, 0)
  {
    hide NoiseFree, Excess;
    forall j | 0 <= j < PERIOD
      ensures Within(Excess(clicks, message, delay, contrast, ShortPlace(j), BLOCKS), 0)
    {
      NoExcess(clicks, message, delay, contrast, ShortPlace(j), BLOCKS);
    }
    forall b | 0 <= b < BLOCKS
      ensures Within(Excess(clicks, message, delay, contrast, LongPlace(delay % PERIOD, b), PERIOD), 0)
    {
      NoExcess(clicks, message, delay, contrast, LongPlace(delay % PERIOD, b), PERIOD);
    }
  }

  /** Positions at which the same is expected add up to that many times as much, and their excess. */
  lemma {:induction false} SumOfEqual(
    clicks: seq<Click>, message: seq<nat>, delay: nat, contrast: nat -> int, place: nat -> int, n: nat, v: int)
    requires |message| == NUM_WORDS
    requires forall k: nat :: k < n ==> Expected(message, delay, contrast, place(k)) == v
    ensures SumAt(clicks, place, n) == n * v + Excess(clicks, message, delay, contrast, place, n)
  {
    hide NetAt, Expected;
    if n == 0 {
    } else {
      SumOfEqual(clicks, message, delay, contrast, place, n - 1, v);
      assert (n - 1) * v + v == n * v;
    }
  }

  lemma ModOfMod(n: int)
    ensures n % TOTAL % PERIOD == n % PERIOD
  {
    var r := n % TOTAL;
    RemainderIsUnique(n, PERIOD, BLOCKS * (n / TOTAL) + r / PERIOD, r % PERIOD);
  }

  function Remainder(q: int): int {
    q % PERIOD
  }

  function Quotient(q: int): int {
    q / PERIOD
  }

  function ShortPlace(j: nat): nat -> int {
    (k: nat) => PERIOD * k + j
  }

  lemma ShortEnumerates(j: nat)
    requires j < PERIOD
    ensures Enumerates(Remainder, j, ShortPlace(j), Quotient, BLOCKS)
  {
  }

  /** Bin j of the short histogram adds up 400 positions that are all alike. */
  lemma ShortHistogram(clicks: seq<Click>, message: seq<nat>, delay: nat, contrast: nat -> int, j: nat)
    requires |message| == NUM_WORDS && delay < TOTAL && j < PERIOD
    requires forall p :: 0 <= p < TOTAL ==> AngleAt(message, p) == if p % PERIOD == 0 then 1 else 0
    ensures Net(clicks, ShortBin, j) == BLOCKS * contrast(if j == delay % PERIOD then 1 else 0)
      + Excess(clicks, message, delay, contrast, ShortPlace(j), BLOCKS)
  {
    forall k: nat | k < BLOCKS
      ensures Expected(message, delay, contrast, ShortPlace(j)(k)) == contrast(if j == delay % PERIOD then 1 else 0)
    {
      ShortPlaceAngle(k, j, delay);
      assert ShortPlace(j)(k) == PERIOD * k + j < TOTAL;
      assert AngleAt(message, (PERIOD * k + j - delay) % TOTAL) == if j == delay % PERIOD then 1 else 0;
    }
    SumOfEqual(clicks, message, delay, contrast, ShortPlace(j), BLOCKS,
      contrast(if j == delay % PERIOD then 1 else 0));
    ShortBinIsSum(clicks, j);
  }

  lemma ShortBinIsSum(clicks: seq<Click>, j: nat)
    requires j < PERIOD
    ensures Net(clicks, ShortBin, j) == SumAt(clicks, ShortPlace(j), BLOCKS)
  {
    ShortEnumerates(j);
    forall c: Click
      ensures ShortBin(c) == Remainder(Position(c))
    {
      ModOfMod(2 * c.gc + c.qPos);
    }
    BinIsSum(clicks, ShortBin, Remainder, j, ShortPlace(j), Quotient, BLOCKS);
  }

  lemma ShortPlaceAngle(k: nat, j: nat, delay: nat)
    requires j < PERIOD
    ensures (PERIOD * k + j - delay) % TOTAL % PERIOD == 0 <==> j == delay % PERIOD
  {
    ModOfMod(PERIOD * k + j - delay);
  }

  function LongPosition(mod: int): int -> int {
    (q: int) => (q - mod) % TOTAL / PERIOD
  }

  function LongPlace(mod: int, b: nat): nat -> int {
    (i: nat) => (PERIOD * b + i + mod) % TOTAL
  }

  function LongRank(mod: int): int -> int {
    (q: int) => (q - mod) % TOTAL % PERIOD
  }

  lemma LongEnumerates(mod: int, b: nat)
    requires b < BLOCKS
    ensures Enumerates(LongPosition(mod), b, LongPlace(mod, b), LongRank(mod), PERIOD)
  {
    hide LongPosition, LongPlace, LongRank;
    forall i: nat | i < PERIOD
      ensures LongPosition(mod)(LongPlace(mod, b)(i)) == b && LongRank(mod)(LongPlace(mod, b)(i)) == i
    {
      RankOfPlace(mod, b, i);
    }
    forall q | 0 <= q < TOTAL && LongPosition(mod)(q) == b
      ensures 0 <= LongRank(mod)(q) < PERIOD && LongPlace(mod, b)(LongRank(mod)(q)) == q
    {
      PlaceOfRank(mod, b, q);
    }
  }

  lemma RankOfPlace(mod: int, b: nat, i: nat)
    requires b < BLOCKS && i < PERIOD
    ensures LongPosition(mod)(LongPlace(mod, b)(i)) == b && LongRank(mod)(LongPlace(mod, b)(i)) == i
  {
    ModOfDifference(PERIOD * b + i + mod, mod);
    RemainderIsUnique(PERIOD * b + i, PERIOD, b, i);
    RemainderIsUnique(PERIOD * b + i, TOTAL, 0, PERIOD * b + i);
  }

  lemma PlaceOfRank(mod: int, b: nat, q: int)
    requires 0 <= q < TOTAL && LongPosition(mod)(q) == b
    ensures 0 <= LongRank(mod)(q) < PERIOD && LongPlace(mod, b)(LongRank(mod)(q)) == q
  {
    var r := (q - mod) % TOTAL;
    assert PERIOD * b + r % PERIOD == r;
    ModOfDifference(q - mod, -mod);
  }

  /** Block b of the long histogram adds up 80 positions that are all alike. */
  lemma LongHistogram(clicks: seq<Click>, message: seq<nat>, delay: nat, contrast: nat -> int, b: nat)
    requires |message| == NUM_WORDS && delay < TOTAL && b < BLOCKS
    requires forall p :: 0 <= p < TOTAL ==> AngleAt(message, p) == if p < PERIOD then 1 else 0
    ensures Net(clicks, LongBin(delay % PERIOD), b) == PERIOD * contrast(if b == delay / PERIOD then 1 else 0)
      + Excess(clicks, message, delay, contrast, LongPlace(delay % PERIOD, b), PERIOD)
  {
    var mod := delay % PERIOD;
    var place := LongPlace(mod, b);
    forall i: nat | i < PERIOD
      ensures Expected(message, delay, contrast, place(i)) == contrast(if b == delay / PERIOD then 1 else 0)
    {
      LongPlaceAngle(b, i, delay);
      var q := place(i);
      assert q == (PERIOD * b + i + mod) % TOTAL;
      assert 0 <= q < TOTAL;
    }
    SumOfEqual(clicks, message, delay, contrast, place, PERIOD, contrast(if b == delay / PERIOD then 1 else 0));
    LongBinIsSum(clicks, mod, b);
  }

  lemma LongBinIsSum(clicks: seq<Click>, mod: int, b: nat)
    requires b < BLOCKS
    ensures Net(clicks, LongBin(mod), b) == SumAt(clicks, LongPlace(mod, b), PERIOD)
  {
    LongEnumerates(mod, b);
    forall c: Click
      ensures LongBin(mod)(c) == LongPosition(mod)(Position(c))
    {
      ModOfDifference(2 * c.gc + c.qPos, mod);
    }
    BinIsSum(clicks, LongBin(mod), LongPosition(mod), b, LongPlace(mod, b), LongRank(mod), PERIOD);
  }

  lemma LongPlaceAngle(b: nat, i: nat, delay: nat)
    requires b < BLOCKS && i < PERIOD && delay < TOTAL
    ensures ((PERIOD * b + i + delay % PERIOD) % TOTAL - delay) % TOTAL < PERIOD <==> b == delay / PERIOD
  {
    var n := PERIOD * b + i + delay % PERIOD;
    ModOfDifference(n, delay);
    assert n - delay == PERIOD * (b - delay / PERIOD) + i;
  }

  lemma ModOfDifference(n: int, m: int)
    ensures (n % TOTAL - m) % TOTAL == (n - m) % TOTAL
  {
    var r := n % TOTAL - m;
    RemainderIsUnique(n - m, TOTAL, n / TOTAL + r / TOTAL, r % TOTAL);
  }

  // ---- the argument of the maximum ----

  function Distance(d: int): nat {
    if d < 0 then -d else d
  }

  /** Every bin is low except one that is high, up to noise e. */
  ghost predicate OneBinDiffers(h: seq<int>, at: nat, high: int, low: int, e: nat) {
    forall i :: 0 <= i < |h| ==> Within(h[i] - (if i == at then high else low), e)
  }

  /** The noise at which the odd bin is still found for certain: below a quarter of the contrast, or a
      quarter if it is the first bin, which wins ties. */
  predicate Tolerates(at: nat, d: int, e: nat) {
    if at == 0 then 4 * e <= Distance(d) else 4 * e < Distance(d)
  }

  /** The sum without elements i and j. */
  function SumOthers(h: seq<int>, i: nat, j: nat): int {
    if h == [] then 0
    else SumOthers(h[..|h| - 1], i, j) + if |h| - 1 == i || |h| - 1 == j then 0 else h[|h| - 1]
  }

  lemma {:induction false} SumOfAll(h: seq<int>, i: nat, j: nat)
    requires i != j
    ensures Sum(h) == SumOthers(h, i, j) + (if i < |h| then h[i] else 0) + (if j < |h| then h[j] else 0)
  {
    if h == [] {
    } else {
      SumOfAll(h[..|h| - 1], i, j);
    }
  }

  /** How many elements of n are neither i nor j. */
  function CountOthers(n: nat, i: nat, j: nat): (c: nat)
    requires i != j
    ensures c == n - (if i < n then 1 else 0) - (if j < n then 1 else 0)
  {
    if n == 0 then 0 else CountOthers(n - 1, i, j) + if n - 1 == i || n - 1 == j then 0 else 1
  }

  lemma {:induction false} SumOthersNearLow(h: seq<int>, i: nat, j: nat, low: int, e: nat)
    requires i != j && forall k :: 0 <= k < |h| && k != i && k != j ==> Within(h[k] - low, e)
    ensures var c := CountOthers(|h|, i, j); -(c * e) <= SumOthers(h, i, j) - c * low <= c * e
  {
    if h == [] {
    } else {
      var last := |h| - 1;
      SumOthersNearLow(h[..last], i, j, low, e);
      if last != i && last != j {
        OneMore(CountOthers(last, i, j), e, low);
      }
    }
  }

  lemma OneMore(c: nat, e: int, low: int)
    ensures (c + 1) * e == c * e + e && (c + 1) * low == c * low + low
  {
  }

  /** The two deviations compared, for a contrast d that is not negative. */
  lemma Compare(n: int, d: int, e: int, x: int, y: int, r: int, a: int, b: int)
    requires n > 2 && d >= 0 && e >= 0 && -e <= x <= e && -e <= y <= e && -((n - 2) * e) <= r <= (n - 2) * e
    requires a == (n - 1) * d + (n - 1) * x - y - r && b == -d + (n - 1) * y - x - r
    ensures 4 * e < d ==> a > b && a > -b
    ensures 4 * e <= d ==> a >= b && a >= -b
  {
    Difference(n, d, x, y);
    Sum2(n, d, x, y, e);
    Sign(n, d + x - y);
    Sign(n - 2, d + x + y - 2 * e);
    Linear(n * (d + x - y), (n - 2) * (d + x + y - 2 * e), a, b, (n - 2) * e, r,
      (n - 1) * d, (n - 1) * x, (n - 1) * y, d, x, y);
  }

  lemma Difference(n: int, d: int, x: int, y: int)
    ensures n * (d + x - y) == (n - 1) * d + d + (n - 1) * x + x - (n - 1) * y - y
  {
  }

  lemma Sum2(n: int, d: int, x: int, y: int, e: int)
    ensures (n - 2) * (d + x + y - 2 * e)
         == (n - 1) * d - d + (n - 1) * x - x + (n - 1) * y - y - 2 * ((n - 2) * e)
  {
    var m := n - 2;
    assert m * (d + x + y - 2 * e) == m * (d + x + y) - 2 * (m * e);
    assert m * (d + x + y) == m * d + m * x + m * y;
  }

  lemma Linear(p: int, q: int, a: int, b: int, me: int, r: int, kd: int, kx: int, ky: int, d: int, x: int, y: int)
    requires p == kd + d + kx + x - ky - y && q == kd - d + kx - x + ky - y - 2 * me
    requires a == kd + kx - y - r && b == -d + ky - x - r && -me <= r <= me
    ensures a - b == p && a + b >= q
  {
  }

  lemma Sign(n: int, x: int)
    requires n > 0
    ensures x > 0 ==> n * x > 0
    ensures x >= 0 ==> n * x >= 0
  {
  }

  lemma DeviationsCompared(h: seq<int>, at: nat, high: int, low: int, e: nat, i: nat)
    requires 2 < |h| && at < |h| && i < |h| && i != at && OneBinDiffers(h, at, high, low, e)
    ensures 4 * e < Distance(high - low) ==> Deviation(h, at) > Deviation(h, i)
    ensures 4 * e <= Distance(high - low) ==> Deviation(h, at) >= Deviation(h, i)
  {
    var n, d, x, y := |h|, high - low, h[at] - high, h[i] - low;
    var r := SumOthers(h, at, i) - (n - 2) * low;
    SumOfAll(h, at, i);
    SumOthersNearLow(h, at, i, low, e);
    assert Within(x, e) && Within(y, e);
    var a, b := n * h[at] - Sum(h), n * h[i] - Sum(h);
    DeviationTerms(n, high, low, x, y, r, Sum(h));
    if d >= 0 {
      Compare(n, d, e, x, y, r, a, b);
    } else {
      Negated(n, d, x, y);
      Compare(n, -d, e, -x, -y, -r, -a, -b);
    }
  }

  lemma DeviationTerms(n: int, high: int, low: int, x: int, y: int, r: int, sum: int)
    requires sum == (n - 2) * low + r + (high + x) + (low + y)
    ensures n * (high + x) - sum == (n - 1) * (high - low) + (n - 1) * x - y - r
    ensures n * (low + y) - sum == -(high - low) + (n - 1) * y - x - r
  {
    assert n * (high + x) == n * high + n * x && n * (low + y) == n * low + n * y;
    assert (n - 1) * (high - low) == n * high - high - n * low + low;
    assert (n - 1) * x == n * x - x && (n - 1) * y == n * y - y && (n - 2) * low == n * low - 2 * low;
  }

  lemma Negated(n: int, d: int, x: int, y: int)
    ensures (n - 1) * -d == -((n - 1) * d) && (n - 1) * -x == -((n - 1) * x) && (n - 1) * -y == -((n - 1) * y)
  {
  }

  /** The odd bin out is found, whichever way it differs, within the tolerated noise; without noise and
      contrast the first bin is. */
  lemma OneStandsOut(h: seq<int>, at: nat, high: int, low: int, e: nat, index: nat)
    requires 2 < |h| && at < |h| && OneBinDiffers(h, at, high, low, e) && IsFirstMax(h, index)
    ensures Tolerates(at, high - low, e) ==> index == at
    ensures e == 0 && high == low ==> index == 0
  {
    hide Deviation, OneBinDiffers;
    if index != at {
      DeviationsCompared(h, at, high, low, e, index);
    }
    if e == 0 && high == low && index != 0 {
      AllEqual(h, at, high, low, index);
    }
  }

  lemma AllEqual(h: seq<int>, at: nat, high: int, low: int, index: nat)
    requires at < |h| && index < |h| && high == low && OneBinDiffers(h, at, high, low, 0)
    ensures Deviation(h, 0) == Deviation(h, index)
  {
    assert Within(h[0] - low, 0) && Within(h[index] - low, 0);
  }

  // ---- more noise can mislead ----

  /** The worst noise e: against the odd bin and one other, in favour of the rest. */
  function Misleading(n: nat, at: nat, other: nat, high: int, low: int, e: nat): (h: seq<int>)
    ensures |h| == n
  {
    var s := Directed(high >= low, e);
    seq(n, i => if i == at then high - s else if i == other then low - s else low + s)
  }

  function Directed(up: bool, e: int): int {
    if up then e else -e
  }

  lemma MisleadingDeviates(n: nat, at: nat, other: nat, high: int, low: int, e: nat)
    requires 2 < n && at < n && other < n && at != other
    ensures var h := Misleading(n, at, other, high, low, e);
            && OneBinDiffers(h, at, high, low, e)
            && (4 * e >= Distance(high - low) ==> Deviation(h, other) >= Deviation(h, at))
            && (4 * e > Distance(high - low) > 0 ==> Deviation(h, other) > Deviation(h, at))
  {
    var h, d := Misleading(n, at, other, high, low, e), high - low;
    var s := Directed(high >= low, e);
    SumOfAll(h, at, other);
    SumOthersNearLow(h, at, other, low + s, 0);
    DeviationTerms(n, high, low + s, -s, -2 * s, 0, Sum(h));
    var m := n - 2;
    assert (n - 1) * (d - s) + (n - 1) * -s - -2 * s == m * d + d - 2 * (m * s) by { Expand(m, d, s); }
    assert -(d - s) + (n - 1) * (-2 * s) - -s == -d - 2 * (m * s) by { Expand(m, d, s); }
    Sign(m, 4 * e - Distance(d));
    SignedProducts(m, d, e, s);
  }

  lemma Expand(m: int, d: int, s: int)
    ensures (m + 1) * (d - s) + (m + 1) * -s - -2 * s == m * d + d - 2 * (m * s)
    ensures -(d - s) + (m + 1) * (-2 * s) - -s == -d - 2 * (m * s)
  {
    assert (m + 1) * (d - s) == m * d - m * s + d - s && (m + 1) * -s == -(m * s) - s;
    assert (m + 1) * (-2 * s) == -2 * (m * s) - 2 * s;
  }

  lemma SignedProducts(m: int, d: int, e: int, s: int)
    requires m > 0 && e >= 0 && s == Directed(d >= 0, e)
    ensures var a, b := m * d + d - 2 * (m * s), -d - 2 * (m * s);
            && (m * (4 * e - Distance(d)) >= 0 ==> Distance(b) >= Distance(a))
            && (m * (4 * e - Distance(d)) > 0 && d != 0 ==> Distance(b) > Distance(a))
  {
    var c := Distance(d);
    Products(m, e, c);
    Sign(m, e);
    Sign(m, c);
    if d >= 0 {
      SortedOut(m * c, m * e, c);
    } else {
      assert m * d == -(m * c) && m * s == -(m * e) by { Products(m, e, c); }
      SortedOut(m * c, m * e, c);
    }
  }

  lemma Products(m: int, e: int, c: int)
    ensures m * (4 * e - c) == 4 * (m * e) - m * c && m * -c == -(m * c) && m * -e == -(m * e)
  {
  }

  lemma SortedOut(mc: int, me: int, c: int)
    requires mc >= 0 && me >= 0 && c >= 0
    ensures 4 * me - mc >= 0 ==> c + 2 * me >= Distance(mc + c - 2 * me)
    ensures 4 * me - mc > 0 && c > 0 ==> c + 2 * me > Distance(mc + c - 2 * me)
  {
  }

  /** Without contrast, noise at one other bin is enough. */
  lemma OneBump(n: nat, low: int, e: nat) returns (h: seq<int>)
    requires 2 < n && e > 0
    ensures |h| == n && OneBinDiffers(h, 0, low, low, e) && Deviation(h, 1) > Deviation(h, 0)
  {
    h := seq(n, i => if i == 1 then low + e else low);
    SumOfAll(h, 0, 1);
    SumOthersNearLow(h, 0, 1, low, 0);
    assert Sum(h) == n * low + e;
    assert n * (low + e) == n * low + n * e;
    MultiplesAreApart(e, n - 2);
    assert n * e == e * (n - 2) + 2 * e;
  }

  lemma {:induction false} FirstMaxUpTo(h: seq<int>, n: nat) returns (index: nat)
    requires 1 <= n <= |h|
    ensures index < n
    ensures forall j :: 0 <= j < n ==> Deviation(h, j) <= Deviation(h, index)
    ensures forall j :: 0 <= j < index ==> Deviation(h, j) < Deviation(h, index)
  {
    hide Deviation;
    if n == 1 {
      index := 0;
    } else {
      index := FirstMaxUpTo(h, n - 1);
      if Deviation(h, n - 1) > Deviation(h, index) {
        index := n - 1;
      }
    }
  }

  /** The tolerance is exact: with more noise, some histogram within it misleads the search. */
  lemma ToleranceIsExact(n: nat, at: nat, high: int, low: int, e: nat)
    requires 2 < n && at < n
    ensures Tolerates(at, high - low, e) <==>
      forall h, index | |h| == n && OneBinDiffers(h, at, high, low, e) && IsFirstMax(h, index) :: index == at
  {
    hide Deviation, OneBinDiffers;
    if Tolerates(at, high - low, e) {
      forall h, index | |h| == n && OneBinDiffers(h, at, high, low, e) && IsFirstMax(h, index)
        ensures index == at
      {
        OneStandsOut(h, at, high, low, e, index);
      }
    } else {
      var other := if at == 0 then 1 else 0;
      var h := Misleading(n, at, other, high, low, e);
      if at == 0 && high == low {
        h := OneBump(n, low, e);
      } else {
        MisleadingDeviates(n, at, other, high, low, e);
      }
      var index := FirstMaxUpTo(h, n);
      assert IsFirstMax(h, index) && index != at;
    }
  }

  // ---- the two stages together ----

  /** The delay entries of Alice's parameter file. */
  class AliceDelays {
    var fiberDelayMod: int
    var fiberDelayLong: int
    var fiberDelay: int
    var decoyFiberDelay: int

    constructor () {
      fiberDelayMod, fiberDelayLong, fiberDelay, decoyFiberDelay := 0, 0, 0, 0;
    }

    /** The end of `fd_a`; its own fiber_delay is provisional. */
    method StoreShort(index: int)
      modifies this
      ensures fiberDelayMod == index && fiberDelay == (index - 1) % PERIOD + old(fiberDelayLong)
      ensures fiberDelayLong == old(fiberDelayLong) && decoyFiberDelay == old(decoyFiberDelay)
    {
      fiberDelayMod := index;
      fiberDelay := (index - 1) % PERIOD + fiberDelayLong;
    }

    /** The end of `fd_a_long`. */
    method StoreLong(index: int)
      modifies this
      ensures fiberDelayMod == old(fiberDelayMod) && fiberDelayLong == index
      ensures fiberDelay == fiberDelayMod + PERIOD * index && decoyFiberDelay == fiberDelay - 25
    {
      fiberDelayLong := index;
      fiberDelay := fiberDelayMod + index * PERIOD;
      decoyFiberDelay := fiberDelay - 25;
    }

    /** `fd_a` and then `fd_a_long`, with the clicks that Bob records for the two sequences. The
        stored delay is right for every noise below a quarter of the contrast in either histogram, and
        without noise exactly when each stage either sees a contrast or looks for zero. */
    method FindFiberDelay(shortClicks: seq<Click>, longClicks: seq<Click>, ghost delay: nat,
      ghost shortContrast: nat -> int, ghost shortNoise: nat, ghost longContrast: nat -> int, ghost longNoise: nat,
      ghost single: seq<nat>, ghost block: seq<nat>)
      requires delay < TOTAL && |single| == NUM_WORDS && |block| == NUM_WORDS
      requires forall p :: 0 <= p < TOTAL ==> AngleAt(single, p) == if p % PERIOD == 0 then 1 else 0
      requires forall p :: 0 <= p < TOTAL ==> AngleAt(block, p) == if p < PERIOD then 1 else 0
      requires ShortNoise(shortClicks, single, delay, shortContrast, shortNoise)
      requires LongNoise(longClicks, block, delay, longContrast, longNoise)
      modifies this
      ensures
        && Tolerates(delay % PERIOD, BLOCKS * (shortContrast(1) - shortContrast(0)), shortNoise)
        && Tolerates(delay / PERIOD, PERIOD * (longContrast(1) - longContrast(0)), longNoise)
        ==> fiberDelay == delay
      ensures shortNoise == longNoise == 0 ==>
        (fiberDelay == delay <==>
          && (shortContrast(1) != shortContrast(0) || delay % PERIOD == 0)
          && (longContrast(1) != longContrast(0) || delay / PERIOD == 0))
      ensures decoyFiberDelay == fiberDelay - 25
    {
      hide ShortNoise, LongNoise, IsFirstMax, AngleAt;
      var index := FindOptDelayA(shortClicks);
      NetsOfBins(shortClicks, ShortBin, PERIOD);
      ShortStage(shortClicks, single, delay, shortContrast, shortNoise, index);
      StoreShort(index);
      var indexLong := FindOptDelayALong(longClicks, fiberDelayMod);
      NetsOfBins(longClicks, LongBin(fiberDelayMod), BLOCKS);
      if index == delay % PERIOD {
        LongStage(longClicks, block, delay, longContrast, longNoise, indexLong);
      }
      StoreLong(indexLong);
    }
  }

  /** The first stage finds the delay modulo 80. */
  lemma ShortStage(clicks: seq<Click>, message: seq<nat>, delay: nat, contrast: nat -> int, e: nat, index: nat)
    requires |message| == NUM_WORDS && delay < TOTAL
    requires forall p :: 0 <= p < TOTAL ==> AngleAt(message, p) == if p % PERIOD == 0 then 1 else 0
    requires ShortNoise(clicks, message, delay, contrast, e)
    requires IsFirstMax(seq(PERIOD, b => Net(clicks, ShortBin, b)), index)
    ensures Tolerates(delay % PERIOD, BLOCKS * (contrast(1) - contrast(0)), e) ==> index == delay % PERIOD
    ensures e == 0 ==> index == if contrast(1) == contrast(0) then 0 else delay % PERIOD
  {
    hide Excess, IsFirstMax, AngleAt;
    var h, at := seq(PERIOD, b => Net(clicks, ShortBin, b)), delay % PERIOD;
    forall j | 0 <= j < PERIOD
      ensures Within(h[j] - (if j == at then BLOCKS * contrast(1) else BLOCKS * contrast(0)), e)
    {
      ShortHistogram(clicks, message, delay, contrast, j);
    }
    OneStandsOut(h, at, BLOCKS * contrast(1), BLOCKS * contrast(0), e, index);
  }

  /** The second stage, given the right remainder, finds which block of 80. */
  lemma LongStage(clicks: seq<Click>, message: seq<nat>, delay: nat, contrast: nat -> int, e: nat, index: nat)
    requires |message| == NUM_WORDS && delay < TOTAL
    requires forall p :: 0 <= p < TOTAL ==> AngleAt(message, p) == if p < PERIOD then 1 else 0
    requires LongNoise(clicks, message, delay, contrast, e)
    requires IsFirstMax(seq(BLOCKS, b => Net(clicks, LongBin(delay % PERIOD), b)), index)
    ensures Tolerates(delay / PERIOD, PERIOD * (contrast(1) - contrast(0)), e) ==> index == delay / PERIOD
    ensures e == 0 ==> index == if contrast(1) == contrast(0) then 0 else delay / PERIOD
  {
    hide Excess, IsFirstMax, AngleAt;
    var h, at := seq(BLOCKS, b => Net(clicks, LongBin(delay % PERIOD), b)), delay / PERIOD;
    forall b | 0 <= b < BLOCKS
      ensures Within(h[b] - (if b == at then PERIOD * contrast(1) else PERIOD * contrast(0)), e)
    {
      LongHistogram(clicks, message, delay, contrast, b);
    }
    OneStandsOut(h, at, PERIOD * contrast(1), PERIOD * contrast(0), e, index);
  }
}
