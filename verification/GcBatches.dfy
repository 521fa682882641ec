/** Cutting a received counter array into power-of-two batches (gc/src/hw.rs and the receive loop of
    gc/src/bin/alice.rs). The batch size is Pow2(k) for any k; the program uses k = 8. */
module GcBatches {
  import opened Bytes

  /** log2 of BATCHSIZE. */
  const LOG_BATCHSIZE: nat := 8

  function Full(count: nat, size: nat): (out: seq<nat>)
    ensures |out| == count && forall i :: 0 <= i < count ==> out[i] == size
  {
    seq(count, i => size)
  }

  /** The powers of two Pow2(i) with from <= i < k whose bit is set in n, in ascending order. */
  function LowBits(n: nat, from: nat, k: nat): seq<nat>
    requires from <= k
    decreases k - from
  {
    if from == k then []
    else (if HasBit(n, from) then [Pow2(from)] else []) + LowBits(n, from + 1, k)
  }

  function Decompose(n: nat, k: nat): seq<nat> {
    Full(Shift(n, k), Pow2(k)) + LowBits(n, 0, k)
  }

  function Sum(xs: seq<nat>): nat {
    if xs == [] then 0 else xs[0] + Sum(xs[1..])
  }

  /** A batch list Alice's FPGA accepts: full batches, then strictly ascending smaller powers of two. */
  ghost predicate IsBatchList(out: seq<nat>, k: nat) {
    exists full: nat :: full <= |out| && FullThenAscending(out, full, k)
  }

  ghost predicate FullThenAscending(out: seq<nat>, full: nat, k: nat)
    requires full <= |out|
  {
    && (forall i :: 0 <= i < full ==> out[i] == Pow2(k))
    && AscendingPowers(out[full..], 0, k)
  }

  /** Strictly ascending powers of two, each Pow2(i) with from <= i < k. */
  ghost predicate AscendingPowers(out: seq<nat>, from: nat, k: nat)
    decreases |out|
  {
    |out| > 0 ==> exists e: nat :: from <= e < k && out[0] == Pow2(e) && AscendingPowers(out[1..], e + 1, k)
  }

  // ---- bit arithmetic ----

  lemma {:induction false} LowStep(n: nat, i: nat)
    ensures Low(n, i + 1) == Low(n, i) + if HasBit(n, i) then Pow2(i) else 0
  {
    if i > 0 {
      LowStep(n / 2, i - 1);
      assert HasBit(n, i) == HasBit(n / 2, i - 1);
      assert Low(n, i + 1) == n % 2 + 2 * Low(n / 2, i);
    } else {
      assert Low(n / 2, 0) == 0;
    }
  }

  /** A multiple of Pow2(i+1) plus Pow2(i) has bit i set; a multiple of Pow2(i+1) has it clear. */
  lemma {:induction false} BitOfMultiple(r: nat, i: nat)
    requires Low(r, i + 1) == 0
    ensures HasBit(Pow2(i) + r, i) && Low(Pow2(i) + r, i) == 0
    ensures !HasBit(r, i) && Low(r, i) == 0
  {
    if i > 0 {
      assert r % 2 == 0 && Low(r / 2, i) == 0;
      BitOfMultiple(r / 2, i - 1);
      assert (Pow2(i) + r) / 2 == Pow2(i - 1) + r / 2;
    } else {
      assert Low(r, 1) == r % 2 + 2 * Low(r / 2, 0);
    }
  }

  lemma {:induction false} LowZeroBelow(n: nat, i: nat, j: nat)
    requires i <= j && Low(n, j) == 0
    ensures Low(n, i) == 0
  {
    if i == 0 {
    } else {
      LowZeroBelow(n / 2, i - 1, j - 1);
    }
  }

  lemma {:induction false} Pow2Grows(i: nat, j: nat)
    requires i <= j
    ensures Pow2(i) <= Pow2(j)
    ensures i < j ==> 2 * Pow2(i) <= Pow2(j)
  {
    if i >= j {
    } else {
      Pow2Grows(i, j - 1);
    }
  }

  // ---- sums ----

  lemma {:induction false} SumConcat(xs: seq<nat>, ys: seq<nat>)
    ensures Sum(xs + ys) == Sum(xs) + Sum(ys)
  {
    if xs == [] {
      assert xs + ys == ys;
    } else {
      assert (xs + ys)[1..] == xs[1..] + ys;
      SumConcat(xs[1..], ys);
    }
  }

  lemma {:induction false} SumFull(count: nat, k: nat)
    ensures Sum(Full(count, Pow2(k))) == Scaled(count, k)
  {
    if count > 0 {
      assert Full(count, Pow2(k))[1..] == Full(count - 1, Pow2(k));
      SumFull(count - 1, k);
      ScaledAdds(count - 1, 1, k);
    } else {
      ScaledAdds(0, 0, k);
    }
  }

  lemma {:induction false} LowBitsSum(n: nat, from: nat, k: nat)
    requires from <= k
    ensures Sum(LowBits(n, from, k)) + Low(n, from) == Low(n, k)
    decreases k - from
  {
    if from >= k {
    } else {
      LowBitsSum(n, from + 1, k);
      LowStep(n, from);
      SumConcat(if HasBit(n, from) then [Pow2(from)] else [], LowBits(n, from + 1, k));
    }
  }

  lemma {:induction false} LowBitsAscend(n: nat, from: nat, low: nat, k: nat)
    requires low <= from <= k
    ensures AscendingPowers(LowBits(n, from, k), low, k)
    decreases k - from
  {
    if from >= k {
    } else {
      if HasBit(n, from) {
        LowBitsAscend(n, from + 1, from + 1, k);
        assert LowBits(n, from, k)[1..] == LowBits(n, from + 1, k);
      } else {
        LowBitsAscend(n, from + 1, low, k);
        assert LowBits(n, from, k) == LowBits(n, from + 1, k);
      }
    }
  }

  /** The batches add up to the click count. */
  lemma DecomposeSum(n: nat, k: nat)
    ensures Sum(Decompose(n, k)) == n
  {
    SumConcat(Full(Shift(n, k), Pow2(k)), LowBits(n, 0, k));
    SumFull(Shift(n, k), k);
    LowBitsSum(n, 0, k);
    ShiftAndLow(n, k);
  }

  /** They are full batches followed by strictly ascending smaller powers of two. */
  lemma DecomposeIsBatchList(n: nat, k: nat)
    ensures IsBatchList(Decompose(n, k), k)
  {
    var full, low := Full(Shift(n, k), Pow2(k)), LowBits(n, 0, k);
    LowBitsAscend(n, 0, 0, k);
    assert (full + low)[|full|..] == low;
    assert FullThenAscending(full + low, |full|, k);
  }

  // ---- uniqueness ----

  lemma {:induction false} SumBelow(out: seq<nat>, from: nat, k: nat)
    requires from <= k && AscendingPowers(out, from, k)
    ensures Sum(out) + Pow2(from) <= Pow2(k)
    ensures forall i :: 0 <= i < |out| ==> 1 <= out[i] < Pow2(k)
    decreases |out|
  {
    Pow2Grows(from, k);
    if |out| == 0 {
    } else {
      var e: nat :| from <= e < k && out[0] == Pow2(e) && AscendingPowers(out[1..], e + 1, k);
      assert Pow2(e + 1) == 2 * Pow2(e);
      hide Pow2, AscendingPowers;
      SumBelow(out[1..], e + 1, k);
      Pow2Grows(from, e);
      Pow2Grows(e, k);
      assert forall i :: 1 <= i < |out| ==> out[i] == out[1..][i - 1];
    }
  }

  /** The first power is Pow2(from) exactly when bit `from` of the sum is set. */
  lemma {:induction false} FirstPowerFromSum(out: seq<nat>, from: nat, k: nat)
    requires AscendingPowers(out, from, k)
    ensures Low(Sum(out), from) == 0
    ensures (|out| > 0 && out[0] == Pow2(from)) <==> HasBit(Sum(out), from)
    ensures if HasBit(Sum(out), from) then AscendingPowers(out[1..], from + 1, k)
            else AscendingPowers(out, from + 1, k)
    decreases |out|
  {
    if |out| == 0 {
      ShiftAndLowAreUnique(0, 0, from) by { ScaledAdds(0, 0, from); }
      ScaledAdds(0, 0, from);
    } else {
      var e: nat :| from <= e < k && out[0] == Pow2(e) && AscendingPowers(out[1..], e + 1, k);
      FirstPowerFromSum(out[1..], e + 1, k);
      hide Low, HasBit, Pow2;
      HeadIsLowestBit(Sum(out[1..]), e, from);
    }
  }

  /** Adding a power of two below a multiple of the next one sets the lowest bit there is. */
  lemma HeadIsLowestBit(rest: nat, e: nat, from: nat)
    requires Low(rest, e + 1) == 0 && from <= e
    ensures Low(Pow2(e) + rest, from) == 0
    ensures HasBit(Pow2(e) + rest, from) <==> e == from
    ensures Pow2(e) == Pow2(from) <==> e == from
  {
    BitOfMultiple(rest, e);
    if e > from {
      LowZeroBelow(Pow2(e) + rest, from + 1, e);
      BitOfMultiple(Pow2(e) + rest, from);
      Pow2Grows(from, e);
    }
  }

  lemma {:induction false} AscendingIsDeterminedBySum(a: seq<nat>, b: seq<nat>, from: nat, k: nat)
    requires from <= k && AscendingPowers(a, from, k) && AscendingPowers(b, from, k)
    requires Sum(a) == Sum(b)
    ensures a == b
    decreases k - from
  {
    if from == k {
      assert a == [] && b == [];
    } else {
      FirstPowerFromSum(a, from, k);
      FirstPowerFromSum(b, from, k);
      if HasBit(Sum(a), from) {
        AscendingIsDeterminedBySum(a[1..], b[1..], from + 1, k);
        assert a == [a[0]] + a[1..] && b == [b[0]] + b[1..];
      } else {
        AscendingIsDeterminedBySum(a, b, from + 1, k);
      }
    }
  }

  /** There is only one way to do it: any acceptable batch list is the decomposition of its own sum. */
  lemma DecomposeIsUnique(out: seq<nat>, k: nat)
    requires IsBatchList(out, k)
    ensures out == Decompose(Sum(out), k)
  {
    var full: nat :| full <= |out| && FullThenAscending(out, full, k);
    var n, rest := Sum(out), out[full..];
    assert out == Full(full, Pow2(k)) + rest;
    SumConcat(Full(full, Pow2(k)), rest);
    SumFull(full, k);
    SumBelow(rest, 0, k);
    ShiftAndLowAreUnique(full, Sum(rest), k);
    LowBitsAscend(n, 0, 0, k);
    LowBitsSum(n, 0, k);
    AscendingIsDeterminedBySum(rest, LowBits(n, 0, k), 0, k);
  }

  lemma BatchListBounded(out: seq<nat>, k: nat)
    requires IsBatchList(out, k)
    ensures forall i :: 0 <= i < |out| ==> 1 <= out[i] <= Pow2(k)
  {
    var full: nat :| full <= |out| && FullThenAscending(out, full, k);
    SumBelow(out[full..], 0, k);
    assert forall i :: full <= i < |out| ==> out[i] == out[full..][i - full];
  }

  /** The loops of `decompose_num_clicks`: full batches first, then one push per set low bit. */
  method DecomposeNumClicks(numClicks: nat, k: nat) returns (numOut: seq<nat>)
    ensures Sum(numOut) == numClicks && IsBatchList(numOut, k)
    ensures forall i :: 0 <= i < |numOut| ==> 1 <= numOut[i] <= Pow2(k)
    ensures numOut == Decompose(numClicks, k)
  {
    var batchSize := Pow2(k);
    numOut := [];
    ShiftIsDivision(numClicks, k);
    var numFullLength := numClicks / batchSize;
    for i := 0 to numFullLength
      invariant numOut == Full(i, batchSize)
    {
      numOut := numOut + [batchSize];
    }
    var num := 1;
    for i := 0 to k
      invariant num == Pow2(i)
      invariant numOut + LowBits(numClicks, i, k) == Decompose(numClicks, k)
    {
      ghost var rest := LowBits(numClicks, i + 1, k);
      if HasBit(numClicks, i) {
        assert numOut + ([num] + rest) == numOut + [num] + rest;
        numOut := numOut + [num];
      } else {
        assert [] + rest == rest;
      }
      num := 2 * num;
    }
    assert numOut + LowBits(numClicks, k, k) == numOut;
    DecomposeSum(numClicks, k);
    DecomposeIsBatchList(numClicks, k);
    BatchListBounded(numOut, k);
  }

  // ---- slicing ----

  /** The slices Alice copies out of the counter array, `gc[pos..pos+num]` for successive batches. */
  function Slices<T>(gc: seq<T>, nums: seq<nat>): (out: seq<seq<T>>)
    requires Sum(nums) <= |gc|
    ensures |out| == |nums|
    decreases |nums|
  {
    if nums == [] then [] else [gc[..nums[0]]] + Slices(gc[nums[0]..], nums[1..])
  }

  function Flatten<T>(parts: seq<seq<T>>): seq<T> {
    if parts == [] then [] else parts[0] + Flatten(parts[1..])
  }

  /** Slicing by a list of sizes partitions the array in order, without gap or overlap. */
  lemma {:induction false} SlicesPartition<T>(gc: seq<T>, nums: seq<nat>)
    requires Sum(nums) == |gc|
    ensures Flatten(Slices(gc, nums)) == gc
    ensures forall i :: 0 <= i < |nums| ==> |Slices(gc, nums)[i]| == nums[i]
    decreases |nums|
  {
    if nums == [] {
    } else {
      SlicesPartition(gc[nums[0]..], nums[1..]);
      var out := Slices(gc, nums);
      assert out[1..] == Slices(gc[nums[0]..], nums[1..]);
      assert gc == gc[..nums[0]] + gc[nums[0]..];
    }
  }

  /** The sub-batches Alice writes for one received counter array. */
  function SubBatches<T>(gc: seq<T>): (out: seq<seq<T>>)
    ensures Flatten(out) == gc
    ensures forall i :: 0 <= i < |out| ==> 1 <= |out[i]| <= Pow2(LOG_BATCHSIZE)
  {
    var nums := Decompose(|gc|, LOG_BATCHSIZE);
    DecomposeSum(|gc|, LOG_BATCHSIZE);
    DecomposeIsBatchList(|gc|, LOG_BATCHSIZE);
    BatchListBounded(nums, LOG_BATCHSIZE);
    SlicesPartition(gc, nums);
    Slices(gc, nums)
  }
}
