/** The gate placement check: remote/hws_bob.py:103-244, 548-564 and remote/hws_alice.py:968-1010.
    Count thresholds are compared exactly, as rationals. */
module GateSearch {
  import opened Maybe
  import opened Text
  import opened GateDelay

  const GATE_MIN_PS: int := 0
  const GATE_MAX_PS: int := 13280
  const GATE_PROBE_PS: int := 600
  const GATE_SCAN_SPAN_PS: int := 800
  const GATE_SCAN_STEP_PS: int := 100
  const GATE_MIN_COUNTS: nat := 50
  const SCAN_LENGTH: nat := 17
  const SCAN_CENTRE: nat := 8

  function Clamp(ps: int): (r: int) {
    if ps < GATE_MIN_PS then GATE_MIN_PS else if ps > GATE_MAX_PS then GATE_MAX_PS else ps
  }

  predicate InRange(ps: int) {
    GATE_MIN_PS <= ps <= GATE_MAX_PS
  }

  /** One `counts_slow` read. */
  datatype Reading = Counts(click0: nat, click1: nat) | Unreadable(message: string)

  /** An exception of a move, raised after that many of its actions (see GateDelay). */
  datatype Fault = Fault(point: nat, message: string)

  function PointOf(fault: Option<Fault>): Option<nat> {
    match fault case None => None case Some(f) => Some(f.point)
  }

  /** How one move of the gate ends. */
  datatype Applied = At(ps: int) | Raised(message: string)

  /** An entry of the scan list. */
  datatype Point = Point(ps: int, score: nat)

  datatype Outcome =
    | TooFewCounts(click0: nat, click1: nat)
    | Centred(at: int, base: nat, below: nat, above: nat)
    | Edge(at: int, base: nat, neighbour: nat)
    | NoBetter(at: int)
    | Moved(from: int, to: int, width: int, base: nat, final: nat)
    | Failed(message: string)

  // ---- thresholds ----

  /** x > base * (1 + 0.08). */
  predicate Beats(x: nat, base: nat) {
    100 * x > 108 * base
  }

  /** x >= best * (1 - 0.05). */
  predicate NearBest(x: nat, best: nat) {
    100 * x >= 95 * best
  }

  // ---- the scan and its plateau ----

  /** `max(scan, key=...)`: the first of the best points. */
  function Best(scan: seq<Point>): (i: nat)
    requires scan != []
    ensures i < |scan|
    ensures forall j :: 0 <= j < |scan| ==> scan[j].score <= scan[i].score
    ensures forall j :: 0 <= j < i ==> scan[j].score < scan[i].score
  {
    if |scan| == 1 then 0
    else
      var i := Best(scan[..|scan| - 1]);
      if scan[|scan| - 1].score > scan[i].score then |scan| - 1 else i
  }

  predicate Near(scan: seq<Point>, i: int) {
    0 <= i < |scan| && NearBest(scan[i].score, scan[Best(scan)].score)
  }

  /** lo..hi is the longest run around the best point in which every point is near the best. */
  ghost predicate IsPlateau(scan: seq<Point>, lo: nat, hi: nat) {
    && scan != []
    && lo <= Best(scan) <= hi < |scan|
    && (forall i :: lo <= i <= hi ==> Near(scan, i))
    && !Near(scan, lo - 1) && !Near(scan, hi + 1)
  }

  lemma PlateauIsUnique(scan: seq<Point>, lo: nat, hi: nat, lo': nat, hi': nat)
    requires IsPlateau(scan, lo, hi) && IsPlateau(scan, lo', hi')
    ensures lo == lo' && hi == hi'
  {
    assert Near(scan, lo') && Near(scan, lo) && Near(scan, hi) && Near(scan, hi');
  }

  /** The two inward loops of the recentring. */
  method FindPlateau(scan: seq<Point>) returns (lo: nat, hi: nat)
    requires scan != []
    ensures IsPlateau(scan, lo, hi)
  {
    var best := Best(scan);
    lo := best;
    while lo > 0 && Near(scan, lo - 1)
      invariant lo <= best
      invariant forall i :: lo <= i <= best ==> Near(scan, i)
    {
      lo := lo - 1;
    }
    hi := best;
    while hi < |scan| - 1 && Near(scan, hi + 1)
      invariant best <= hi < |scan|
      invariant forall i :: lo <= i <= hi ==> Near(scan, i)
    {
      hi := hi + 1;
    }
  }

  ghost predicate IsCentre(scan: seq<Point>, to: int, width: int) {
    exists lo: nat, hi: nat :: IsPlateau(scan, lo, hi)
      && to == (scan[lo].ps + scan[hi].ps) / 2 && width == scan[hi].ps - scan[lo].ps + GATE_SCAN_STEP_PS
  }

  // ---- noise-free counts ----

  function ScanPosition(d0: int, k: int): int {
    d0 + GATE_SCAN_STEP_PS * (k - SCAN_CENTRE)
  }

  /** The first k scan offsets, those outside the safe range skipped. */
  function ScanUpTo(score: int -> nat, d0: int, k: nat): seq<Point> {
    if k == 0 then []
    else
      var ps := ScanPosition(d0, k - 1);
      ScanUpTo(score, d0, k - 1) + if InRange(ps) then [Point(ps, score(ps))] else []
  }

  function ScanOf(score: int -> nat, d0: int): seq<Point> {
    ScanUpTo(score, d0, SCAN_LENGTH)
  }

  /** How many scan points there are on each side of the start. */
  function PointsBelow(d0: int): nat
    requires InRange(d0)
  {
    if d0 < GATE_SCAN_SPAN_PS then d0 / GATE_SCAN_STEP_PS else SCAN_CENTRE
  }

  function PointsAbove(d0: int): nat
    requires InRange(d0)
  {
    PointsBelow(GATE_MAX_PS - d0)
  }

  function PointPosition(d0: int, i: int): int
    requires InRange(d0)
  {
    d0 + GATE_SCAN_STEP_PS * (i - PointsBelow(d0))
  }

  predicate IsScanPoint(score: int -> nat, d0: int, p: Point, i: int)
    requires InRange(d0)
  {
    var ps := PointPosition(d0, i);
    InRange(ps) && p == Point(ps, score(ps))
  }

  /** The scan visits every grid point in range, in order. */
  lemma {:induction false} ScanShape(score: int -> nat, d0: int, k: nat)
    requires InRange(d0) && k <= SCAN_LENGTH
    ensures var skipped := SCAN_CENTRE - PointsBelow(d0);
            var total := PointsBelow(d0) + 1 + PointsAbove(d0);
            |ScanUpTo(score, d0, k)| == if k <= skipped then 0 else if k - skipped <= total then k - skipped else total
    ensures forall i :: 0 <= i < |ScanUpTo(score, d0, k)| ==> IsScanPoint(score, d0, ScanUpTo(score, d0, k)[i], i)
  {
    if k == 0 {
    } else {
      ScanShape(score, d0, k - 1);
      var before, whole, ps := ScanUpTo(score, d0, k - 1), ScanUpTo(score, d0, k), ScanPosition(d0, k - 1);
      if InRange(ps) {
        assert whole == before + [Point(ps, score(ps))] && ps == PointPosition(d0, |before|);
      }
      forall i | 0 <= i < |whole|
        ensures IsScanPoint(score, d0, whole[i], i)
      {
        assert i < |before| ==> whole[i] == before[i] && IsScanPoint(score, d0, before[i], i);
      }
    }
  }

  // ---- what any scan looks like ----

  function Flat(): int -> nat {
    (ps: int) => 0
  }

  /** The scan has an entry for every grid point in range, in order, whatever was read there. */
  ghost predicate IsScanOver(scan: seq<Point>, d0: int)
    requires InRange(d0)
  {
    && |scan| == PointsBelow(d0) + 1 + PointsAbove(d0)
    && forall i :: 0 <= i < |scan| ==> scan[i].ps == PointPosition(d0, i) && InRange(scan[i].ps)
  }

  ghost predicate SamePositions(x: seq<Point>, y: seq<Point>) {
    |x| == |y| && forall i :: 0 <= i < |x| ==> x[i].ps == y[i].ps
  }

  lemma ScanIsOver(scan: seq<Point>, d0: int)
    requires InRange(d0) && SamePositions(scan, ScanOf(Flat(), d0))
    ensures IsScanOver(scan, d0)
  {
    ScanShape(Flat(), d0, SCAN_LENGTH);
    var flat := ScanOf(Flat(), d0);
    forall i | 0 <= i < |scan|
      ensures scan[i].ps == PointPosition(d0, i) && InRange(scan[i].ps)
    {
      assert IsScanPoint(Flat(), d0, flat[i], i);
    }
  }

  ghost predicate BetterNeighbour(score: int -> nat, d0: int) {
    || Beats(score(Clamp(d0 - GATE_PROBE_PS)), score(d0))
    || Beats(score(Clamp(d0 + GATE_PROBE_PS)), score(d0))
  }

  function ScanBest(score: int -> nat, d0: int): nat {
    if ScanOf(score, d0) == [] then 0 else ScanOf(score, d0)[Best(ScanOf(score, d0))].score
  }

  ghost predicate ScanBeats(score: int -> nat, d0: int) {
    Beats(ScanBest(score, d0), score(d0))
  }

  /** What the check promises when every count at a position is the same. The cases exclude each
      other, so the outcome is determined. */
  ghost predicate AsPromised(score: int -> nat, d0: int, recentre: bool, outcome: Outcome) {
    match outcome
    case TooFewCounts(click0, click1) => score(d0) == click0 + click1 < GATE_MIN_COUNTS
    case Centred(at, base, below, above) =>
      && score(d0) == base >= GATE_MIN_COUNTS && !BetterNeighbour(score, d0)
      && at == d0 && below == score(Clamp(d0 - GATE_PROBE_PS)) && above == score(Clamp(d0 + GATE_PROBE_PS))
    case Edge(at, base, neighbour) =>
      && score(d0) == base >= GATE_MIN_COUNTS && BetterNeighbour(score, d0) && !recentre && at == d0
      && neighbour == Max(score(Clamp(d0 - GATE_PROBE_PS)), score(Clamp(d0 + GATE_PROBE_PS)))
    case NoBetter(at) =>
      && score(d0) >= GATE_MIN_COUNTS && BetterNeighbour(score, d0) && recentre && at == d0
      && !ScanBeats(score, d0)
    case Moved(from, to, width, base, final) =>
      && score(d0) == base >= GATE_MIN_COUNTS && BetterNeighbour(score, d0) && recentre && from == d0
      && ScanBeats(score, d0)
      && IsCentre(ScanOf(score, d0), to, width) && final == score(to)
    case Failed(_) => false
  }

  function Max(a: nat, b: nat): nat {
    if a >= b then a else b
  }

  // ---- Bob's gate ----

  class Gate {
    /** The gate_delay entry of the parameter file. */
    var delay: int
    var readCount: nat
    var moveCount: nat
    const ttl: TtlGate
    /** What the n-th read finds with the gate at some position: anything at all. */
    const meter: (nat, int) -> Reading
    /** The exception that the n-th move raises, if it raises one by itself. */
    const mover: nat -> Option<Fault>

    constructor (ttl: TtlGate, delay: int, meter: (nat, int) -> Reading, mover: nat -> Option<Fault>)
      ensures this.ttl == ttl && this.delay == delay && this.meter == meter && this.mover == mover
    {
      this.ttl, this.delay, this.meter, this.mover := ttl, delay, meter, mover;
      readCount, moveCount := 0, 0;
    }

    /** As far as the program can tell the gate is at ps: the parameter file, the position file and the
        registers all say so. */
    ghost predicate Stands(ps: int)
      reads this, ttl.device, ttl.file
    {
      && ttl.Valid() && InRange(ps) && delay == ps && Accepted(ps)
      && Recorded(ttl.file.content) == Some(FineTriple(ps))
      && ttl.device.gate.duty == Placed(ps).duty && ttl.device.gate.coarse == Placed(ps).coarse
    }

    /** How far the stages are from where the position file puts them. */
    ghost function Off(): Option<Triple>
      reads ttl.device, ttl.file
    {
      Displacement(ttl.State())
    }

    /** And the stages are there too. */
    ghost predicate TrulyAt(ps: int)
      reads this, ttl.device, ttl.file
    {
      Stands(ps) && ttl.device.gate == Placed(ps)
    }

    /** Nothing raises, and every read at a position gives the same score. */
    ghost predicate NoiseFree(score: int -> nat) {
      && (forall n, ps :: meter(n, ps).Counts? && meter(n, ps).click0 + meter(n, ps).click1 == score(ps))
      && (forall n :: mover(n).None?)
    }

    /** Something that a read at p.ps can give. */
    ghost predicate IsReading(p: Point) {
      exists n :: meter(n, p.ps).Counts? && meter(n, p.ps).click0 + meter(n, p.ps).click1 == p.score
    }

    /** `_gate_apply`. It may raise at any point, and does if the position file cannot be read. The
        parameter file may or may not have been written when it raises at once. */
    method Apply(ps: int) returns (r: Applied)
      requires ttl.Valid()
      modifies this`delay, this`moveCount, ttl.device, ttl.file
      ensures ttl.Valid() && moveCount == old(moveCount) + 1
      ensures ttl.State() == Attempted(old(ttl.State()), Clamp(ps), PointOf(mover(old(moveCount))))
      ensures r.At? <==> mover(old(moveCount)).None? && old(Off()).Some?
      ensures r.At? ==> r.ps == Clamp(ps) && Stands(r.ps) && Off() == old(Off())
    {
      var applied, fault := Clamp(ps), mover(moveCount);
      ghost var before := ttl.State();
      moveCount := moveCount + 1;
      var written: bool := *;
      if fault.None? || fault.value.point > 0 || written {
        delay := applied;
      }
      GateRangeIsExact(applied);
      if fault.None? && Recorded(before.file).Some? {
        SuccessKeepsDisplacement(before, applied);
      }
      hide Attempted, Recorded, Placed, Accepted, ShortLines;
      var ok := ttl.GenGate(applied, PointOf(fault));
      if ok {
        return At(applied);
      }
      return Raised(if fault.Some? then fault.value.message else "invalid literal for int()");
    }

    /** `_gate_probe`. */
    method Probe(ps: int) returns (reading: Reading, ghost moved: bool)
      requires ttl.Valid()
      modifies this, ttl.device, ttl.file
      ensures ttl.Valid() && moveCount == old(moveCount) + 1
      ensures moved <==> mover(old(moveCount)).None? && old(Off()).Some?
      ensures moved ==> Stands(Clamp(ps)) && Off() == old(Off()) && reading == meter(old(readCount), Clamp(ps))
      ensures !moved ==> reading.Unreadable? && LeftBy(old(Off()), ttl.State())
    {
      hide ShortLines, Recorded, Displacement, Attempted, Placed;
      ghost var before := ttl.State();
      var r := Apply(ps);
      if r.Raised? {
        FailedMoveLeaves(before, Clamp(ps), mover(moveCount - 1));
        return Unreadable(r.message), false;
      }
      reading, moved := meter(readCount, r.ps), true;
      readCount := readCount + 1;
    }

    /** `gate_edge_check`, for all measurements and for exceptions of reads and of moves at any point.
        Without one the gate ends at the clamped start or at the centre that is reported, which is the
        centre of the plateau of the scan that was measured. With one, the rollback is a setting like
        any other: from what the exception left behind it brings the gate exactly to the clamped start
        if and only if the position file still told the truth; otherwise the gate stays off by as much
        as the file was wrong. */
    method EdgeCheck(recentre: bool, ghost score: int -> nat)
      returns (outcome: Outcome, ghost broken: Setting, ghost scan: seq<Point>)
      requires ttl.Valid()
      modifies this, ttl.device, ttl.file
      ensures ttl.Valid()
      ensures !outcome.Failed? && !outcome.Moved? ==> Stands(Clamp(old(delay))) && Off() == old(Off())
      ensures outcome.Moved? ==> outcome.from == Clamp(old(delay)) && Stands(outcome.to) && Off() == old(Off())
      ensures outcome.Moved? ==> IsMeasuredMove(outcome, scan) && Off().Some?
      ensures outcome.Failed? ==> LeftBy(old(Off()), broken) && moveCount > 0
      ensures outcome.Failed? ==>
        ttl.State() == Attempted(broken, Clamp(old(delay)), PointOf(mover(moveCount - 1)))
      ensures outcome.Failed? && mover(moveCount - 1).None? ==>
        (TrulyAt(Clamp(old(delay))) <==> Honest(broken)) && Off() == Displacement(broken)
      ensures NoiseFree(score) && old(Off()).Some? ==> AsPromised(score, Clamp(old(delay)), recentre, outcome)
    {
      hide AsPromised, IsMeasuredMove, LeftBy, ShortLines, Attempted, Recorded, Placed, Accepted, Displacement;
      var d0 := Clamp(delay);
      outcome, scan := CheckFrom(d0, recentre, score);
      broken := ttl.State();
      FailureIsNoPromise(score, d0, recentre, outcome);
      if outcome.Failed? {
        GateRangeIsExact(d0);
        RollbackEnds(broken, d0);
        var r := Apply(d0);
        PlacedMeansHonest(ttl.State(), d0);
        if r.Raised? {
          outcome := Failed(r.message);
        }
      }
    }

    /** The move that is reported is to the middle of the plateau of the scan that was read, whose best
        point beats the start by the margin. */
    ghost predicate IsMeasuredMove(outcome: Outcome, scan: seq<Point>)
      requires outcome.Moved?
    {
      && InRange(outcome.from) && IsScanOver(scan, outcome.from) && scan != []
      && (forall p :: p in scan ==> IsReading(p)) && IsReading(Point(outcome.from, outcome.base))
      && Beats(scan[Best(scan)].score, outcome.base) && IsCentre(scan, outcome.to, outcome.width)
    }

    /** `_gate_edge_check`. */
    method CheckFrom(d0: int, recentre: bool, ghost score: int -> nat)
      returns (outcome: Outcome, ghost scan: seq<Point>)
      requires ttl.Valid() && InRange(d0)
      modifies this, ttl.device, ttl.file
      ensures ttl.Valid()
      ensures !outcome.Failed? ==> Off() == old(Off()) && Off().Some?
      ensures outcome.Failed? ==> LeftBy(old(Off()), ttl.State())
      ensures !outcome.Moved? && !outcome.Failed? ==> Stands(d0)
      ensures outcome.Moved? ==> outcome.from == d0 && Stands(outcome.to) && IsMeasuredMove(outcome, scan)
      ensures NoiseFree(score) && old(Off()).Some? ==> AsPromised(score, d0, recentre, outcome)
    {
      hide Placed, Accepted, ShortLines, Recorded, Displacement, ScanOf, IsCentre, ScanBest;
      scan := [];
      var centre, moved := Probe(d0);
      if centre.Unreadable? {
        if moved { LeavesAsItIs(ttl.State()); }
        return Failed(centre.message), scan;
      }
      var base := centre.click0 + centre.click1;
      if base < GATE_MIN_COUNTS {
        outcome := Settle(d0, TooFewCounts(centre.click0, centre.click1));
        return;
      }
      assert IsReading(Point(d0, base));
      var below, above, error := ProbeNeighbours(d0, score);
      if error.Some? {
        return Failed(error.value), scan;
      }
      outcome, scan := JudgeNeighbours(d0, recentre, base, below, above, score);
    }

    /** What `_gate_edge_check` does once the three probes are in. */
    method JudgeNeighbours(d0: int, recentre: bool, base: nat, below: nat, above: nat, ghost score: int -> nat)
      returns (outcome: Outcome, ghost scan: seq<Point>)
      requires ttl.Valid() && InRange(d0) && base >= GATE_MIN_COUNTS && Off().Some? && IsReading(Point(d0, base))
      requires NoiseFree(score) ==> base == score(d0)
      requires NoiseFree(score) ==>
        below == score(Clamp(d0 - GATE_PROBE_PS)) && above == score(Clamp(d0 + GATE_PROBE_PS))
      modifies this, ttl.device, ttl.file
      ensures ttl.Valid()
      ensures !outcome.Failed? ==> Off() == old(Off())
      ensures outcome.Failed? ==> LeftBy(old(Off()), ttl.State())
      ensures !outcome.Moved? && !outcome.Failed? ==> Stands(d0)
      ensures outcome.Moved? ==> outcome.from == d0 && Stands(outcome.to) && IsMeasuredMove(outcome, scan)
      ensures NoiseFree(score) ==> AsPromised(score, d0, recentre, outcome)
    {
      hide Placed, Accepted, ShortLines, Recorded, Displacement, ScanOf, IsCentre, ScanBest;
      var neighbour := Max(below, above);
      scan := [];
      if !Beats(neighbour, base) {
        outcome := Settle(d0, Centred(d0, base, below, above));
      } else if !recentre {
        outcome := Settle(d0, Edge(d0, base, neighbour));
      } else {
        outcome, scan := Recentre(d0, base, score);
      }
    }

    /** `_gate_apply(d0)` and the return that follows it. */
    method Settle(d0: int, result: Outcome) returns (outcome: Outcome)
      requires ttl.Valid() && InRange(d0) && !result.Failed?
      modifies this, ttl.device, ttl.file
      ensures ttl.Valid()
      ensures outcome.Failed? || (outcome == result && Stands(d0) && Off() == old(Off()))
      ensures outcome.Failed? ==> LeftBy(old(Off()), ttl.State())
      ensures mover(old(moveCount)).None? && old(Off()).Some? ==> outcome == result
    {
      hide Placed, Accepted, ShortLines, Recorded, Displacement, Attempted;
      ghost var before := ttl.State();
      var r := Apply(d0);
      outcome := result;
      if r.Raised? {
        FailedMoveLeaves(before, d0, mover(moveCount - 1));
        outcome := Failed(r.message);
      }
    }

    /** The two side probes of `_gate_edge_check`. */
    method ProbeNeighbours(d0: int, ghost score: int -> nat) returns (below: nat, above: nat, error: Option<string>)
      requires ttl.Valid() && InRange(d0)
      modifies this, ttl.device, ttl.file
      ensures ttl.Valid()
      ensures error.None? ==> Off() == old(Off()) && Off().Some?
      ensures error.Some? ==> LeftBy(old(Off()), ttl.State())
      ensures NoiseFree(score) && old(Off()).Some? ==>
        error.None? && below == score(Clamp(d0 - GATE_PROBE_PS)) && above == score(Clamp(d0 + GATE_PROBE_PS))
    {
      hide Placed, Accepted, ShortLines, Recorded, Displacement;
      below, above, error := 0, 0, None;
      var reading, moved := Probe(if GATE_MIN_PS > d0 - GATE_PROBE_PS then GATE_MIN_PS else d0 - GATE_PROBE_PS);
      if reading.Unreadable? {
        if moved { LeavesAsItIs(ttl.State()); }
        return below, above, Some(reading.message);
      }
      below := reading.click0 + reading.click1;
      reading, moved := Probe(if GATE_MAX_PS < d0 + GATE_PROBE_PS then GATE_MAX_PS else d0 + GATE_PROBE_PS);
      if reading.Unreadable? {
        if moved { LeavesAsItIs(ttl.State()); }
        return below, above, Some(reading.message);
      }
      above := reading.click0 + reading.click1;
    }

    /** The scan and the move of `_gate_edge_check`. */
    method Recentre(d0: int, base: nat, ghost score: int -> nat) returns (outcome: Outcome, ghost scan: seq<Point>)
      requires ttl.Valid() && InRange(d0) && Off().Some? && IsReading(Point(d0, base))
      modifies this, ttl.device, ttl.file
      ensures ttl.Valid() && (outcome.NoBetter? || outcome.Moved? || outcome.Failed?)
      ensures !outcome.Failed? ==> Off() == old(Off())
      ensures outcome.Failed? ==> LeftBy(old(Off()), ttl.State())
      ensures outcome.NoBetter? ==> outcome.at == d0 && Stands(d0)
      ensures outcome.Moved? ==> outcome.from == d0 && outcome.base == base && Stands(outcome.to)
      ensures outcome.Moved? ==> IsMeasuredMove(outcome, scan)
      ensures NoiseFree(score) ==> !outcome.Failed? && (outcome.Moved? <==> Beats(ScanBest(score, d0), base))
      ensures NoiseFree(score) && outcome.Moved? ==>
        IsCentre(ScanOf(score, d0), outcome.to, outcome.width) && outcome.final == score(outcome.to)
    {
      hide Placed, Accepted, ShortLines, Recorded, Displacement, ScanUpTo, Attempted;
      var points, error := Scan(d0, score);
      scan := points;
      if error.Some? {
        return Failed(error.value), scan;
      }
      if !Beats(points[Best(points)].score, base) {
        outcome := Settle(d0, NoBetter(d0));
        return;
      }
      var lo, hi := FindPlateau(points);
      assert InRange(points[lo].ps) && InRange(points[hi].ps);
      var centre := (points[lo].ps + points[hi].ps) / 2;
      var width := points[hi].ps - points[lo].ps + GATE_SCAN_STEP_PS;
      assert IsCentre(points, centre, width);
      ghost var before := ttl.State();
      var r := Apply(centre);
      if r.Raised? {
        FailedMoveLeaves(before, centre, mover(moveCount - 1));
        return Failed(r.message), scan;
      }
      var final, moved := Probe(centre);
      if final.Unreadable? {
        if moved { LeavesAsItIs(ttl.State()); }
        return Failed(final.message), scan;
      }
      return Moved(d0, r.ps, width, base, final.click0 + final.click1), scan;
    }

    /** The scan loop; None means that nothing raised. */
    method Scan(d0: int, ghost score: int -> nat) returns (scan: seq<Point>, error: Option<string>)
      requires ttl.Valid() && InRange(d0) && Off().Some?
      modifies this, ttl.device, ttl.file
      ensures ttl.Valid()
      ensures error.None? ==> Off() == old(Off()) && IsScanOver(scan, d0) && scan != []
      ensures error.Some? ==> LeftBy(old(Off()), ttl.State())
      ensures forall p :: p in scan ==> IsReading(p)
      ensures NoiseFree(score) ==> error.None? && scan == ScanOf(score, d0)
    {
      hide Placed, Accepted, ShortLines, Recorded, Displacement;
      scan, error := [], None;
      for k := 0 to SCAN_LENGTH
        modifies this, ttl.device, ttl.file
        invariant ttl.Valid() && Off() == old(Off()) && error.None?
        invariant SamePositions(scan, ScanUpTo(Flat(), d0, k))
        invariant forall p :: p in scan ==> IsReading(p)
        invariant NoiseFree(score) ==> scan == ScanUpTo(score, d0, k)
      {
        var ps := ScanPosition(d0, k);
        if InRange(ps) {
          var reading, moved := Probe(ps);
          if reading.Unreadable? {
            if moved { LeavesAsItIs(ttl.State()); }
            return scan, Some(reading.message);
          }
          var point := Point(ps, reading.click0 + reading.click1);
          assert IsReading(point);
          scan := scan + [point];
        }
      }
      ScanIsOver(scan, d0);
    }
  }

  /** What an exception can leave behind, given how far off the stages were before: an undisturbed gate
      if a read raised, or one that a move brought only part of the way. */
  ghost predicate LeftBy(offset: Option<Triple>, s: Setting) {
    || Displacement(s) == offset
    || exists h, ps, n :: Displacement(h) == offset && InRange(ps) && s == Attempted(h, ps, Some(n))
  }

  lemma FailureIsNoPromise(score: int -> nat, d0: int, recentre: bool, outcome: Outcome)
    ensures outcome.Failed? ==> !AsPromised(score, d0, recentre, outcome)
  {
  }

  lemma PlacedMeansHonest(s: Setting, ps: int)
    requires Accepted(ps)
    ensures Recorded(s.file) == Some(FineTriple(ps)) && s.gate == Placed(ps) ==> Honest(s)
    ensures Honest(s) ==> Recorded(s.file).Some?
  {
    hide Recorded;
  }

  lemma LeavesAsItIs(s: Setting)
    ensures LeftBy(Displacement(s), s)
  {
  }

  lemma FailedMoveLeaves(before: Setting, ps: int, fault: Option<Fault>)
    requires InRange(ps) && !(fault.None? && Displacement(before).Some?)
    ensures LeftBy(Displacement(before), Attempted(before, ps, PointOf(fault)))
  {
    if fault.Some? {
      assert Attempted(before, ps, Some(fault.value.point)) == Attempted(before, ps, PointOf(fault));
    }
  }

  // ---- what a move means, for noise-free counts ----

  /** Every point of the plateau lies on the best point's side of the start, which is too poor to
      belong to it. */
  lemma PlateauExcludesStart(score: int -> nat, d0: int, lo: nat, hi: nat)
    requires InRange(d0) && score(d0) >= GATE_MIN_COUNTS && ScanBeats(score, d0)
    requires IsPlateau(ScanOf(score, d0), lo, hi)
    ensures var scan := ScanOf(score, d0);
            if scan[Best(scan)].ps > d0 then d0 + GATE_SCAN_STEP_PS <= scan[lo].ps <= scan[hi].ps
            else scan[lo].ps <= scan[hi].ps <= d0 - GATE_SCAN_STEP_PS
  {
    var scan, start := ScanOf(score, d0), PointsBelow(d0);
    ScanShape(score, d0, SCAN_LENGTH);
    assert IsScanPoint(score, d0, scan[start], start);
    assert !Near(scan, start);
    assert start < lo || hi < start;
    assert IsScanPoint(score, d0, scan[lo], lo) && IsScanPoint(score, d0, scan[hi], hi);
    assert IsScanPoint(score, d0, scan[Best(scan)], Best(scan));
  }

  /** A move really moves, towards the best point, by 100 to 800 ps, within the safe range. */
  lemma MoveIsRealAndBounded(score: int -> nat, d0: int, outcome: Outcome)
    requires InRange(d0) && AsPromised(score, d0, true, outcome) && outcome.Moved?
    ensures 0 <= outcome.to <= 13280
    ensures var scan := ScanOf(score, d0);
            if scan[Best(scan)].ps > d0 then 100 <= outcome.to - d0 <= 800 else 100 <= d0 - outcome.to <= 800
  {
    var scan := ScanOf(score, d0);
    var lo: nat, hi: nat :| IsPlateau(scan, lo, hi) && outcome.to == (scan[lo].ps + scan[hi].ps) / 2;
    PlateauExcludesStart(score, d0, lo, hi);
    ScanShape(score, d0, SCAN_LENGTH);
    assert IsScanPoint(score, d0, scan[lo], lo) && IsScanPoint(score, d0, scan[hi], hi);
  }

  /** Both side probes, as clamped, are positions the scan visits too. */
  predicate ProbesOnScanGrid(d0: int) {
    && (d0 >= GATE_PROBE_PS || d0 % GATE_SCAN_STEP_PS == 0)
    && (d0 <= GATE_MAX_PS - GATE_PROBE_PS || (GATE_MAX_PS - d0) % GATE_SCAN_STEP_PS == 0)
  }

  lemma {:induction false} ScanVisits(score: int -> nat, d0: int, k: nat, n: nat)
    requires k < n <= SCAN_LENGTH && InRange(ScanPosition(d0, k))
    ensures Point(ScanPosition(d0, k), score(ScanPosition(d0, k))) in ScanUpTo(score, d0, n)
  {
    if k >= n - 1 {
    } else {
      ScanVisits(score, d0, k, n - 1);
    }
  }

  lemma ScanBestCovers(score: int -> nat, d0: int, p: Point)
    requires p in ScanOf(score, d0)
    ensures p.score <= ScanBest(score, d0)
  {
  }

  lemma ProbeIsScanned(score: int -> nat, d0: int, probe: int)
    requires InRange(d0) && InRange(probe) && (probe - d0) % GATE_SCAN_STEP_PS == 0
    requires -GATE_SCAN_SPAN_PS <= probe - d0 <= GATE_SCAN_SPAN_PS
    ensures score(probe) <= ScanBest(score, d0)
  {
    var k := SCAN_CENTRE + (probe - d0) / GATE_SCAN_STEP_PS;
    assert ScanPosition(d0, k) == probe;
    ScanVisits(score, d0, k, SCAN_LENGTH);
    ScanBestCovers(score, d0, Point(probe, score(probe)));
  }

  lemma BetterNeighbourIsScanned(score: int -> nat, d0: int)
    requires InRange(d0) && ProbesOnScanGrid(d0) && BetterNeighbour(score, d0)
    ensures ScanBeats(score, d0)
  {
    ProbeIsScanned(score, d0, Clamp(d0 - GATE_PROBE_PS));
    ProbeIsScanned(score, d0, Clamp(d0 + GATE_PROBE_PS));
  }

  /** Counts that are flat except at one position. */
  function Spike(at: int): int -> nat {
    ps => if ps == at then 1000 else 100
  }

  lemma {:induction false} SpikeIsMissed(d0: int, at: int, k: nat)
    requires k <= SCAN_LENGTH && (at - d0) % GATE_SCAN_STEP_PS != 0
    ensures forall p :: p in ScanUpTo(Spike(at), d0, k) ==> p.score == 100
  {
    if k == 0 {
    } else {
      SpikeIsMissed(d0, at, k - 1);
    }
  }

  lemma MissedNeighbour(d0: int) returns (score: int -> nat)
    requires InRange(d0) && !ProbesOnScanGrid(d0)
    ensures score(d0) >= GATE_MIN_COUNTS && BetterNeighbour(score, d0) && !ScanBeats(score, d0)
  {
    var at := if d0 < GATE_PROBE_PS && d0 % GATE_SCAN_STEP_PS != 0 then GATE_MIN_PS else GATE_MAX_PS;
    score := Spike(at);
    SpikeIsMissed(d0, at, SCAN_LENGTH);
  }

  /** A failed side test always ends in a move exactly for the starts whose clamped side probes are
      scanned too, which holds for every start in 600..12680. Elsewhere a lone good position at the
      end of the range is probed but never scanned. */
  lemma FailedTestMovesIffOnGrid(d0: int)
    requires InRange(d0)
    ensures ProbesOnScanGrid(d0) <==>
      (forall score: int -> nat :: score(d0) >= GATE_MIN_COUNTS && BetterNeighbour(score, d0) ==> ScanBeats(score, d0))
    ensures 600 <= d0 <= 12680 ==> ProbesOnScanGrid(d0)
    ensures ProbesOnScanGrid(d0) <==> (d0 >= 600 || d0 % 100 == 0) && (d0 <= 12680 || (13280 - d0) % 100 == 0)
  {
    if ProbesOnScanGrid(d0) {
      forall score: int -> nat | score(d0) >= GATE_MIN_COUNTS && BetterNeighbour(score, d0)
        ensures ScanBeats(score, d0)
      {
        BetterNeighbourIsScanned(score, d0);
      }
    } else {
      var score := MissedNeighbour(d0);
    }
  }

  lemma FailedTestEndsInMove(score: int -> nat, d0: int, outcome: Outcome)
    requires InRange(d0) && ProbesOnScanGrid(d0)
    requires score(d0) >= GATE_MIN_COUNTS && BetterNeighbour(score, d0)
    requires AsPromised(score, d0, true, outcome)
    ensures outcome.Moved?
  {
    BetterNeighbourIsScanned(score, d0);
  }

  // ---- what the check decides, in plain numbers ----

  /** A position of the scan around d0. */
  predicate OnScan(d0: int, ps: int) {
    0 <= ps <= 13280 && -800 <= ps - d0 <= 800 && (ps - d0) % 100 == 0
  }

  /** The scan visits exactly these positions, 100 ps apart. */
  lemma ScanPositions(scan: seq<Point>, d0: int)
    requires InRange(d0) && IsScanOver(scan, d0)
    ensures forall i :: 0 <= i < |scan| ==> OnScan(d0, scan[i].ps)
    ensures forall i :: 0 < i < |scan| ==> scan[i].ps == scan[i - 1].ps + 100
    ensures forall ps :: OnScan(d0, ps) ==> exists i :: 0 <= i < |scan| && scan[i].ps == ps
  {
    forall ps | OnScan(d0, ps) ensures exists i :: 0 <= i < |scan| && scan[i].ps == ps {
      assert scan[PointsBelow(d0) + (ps - d0) / 100].ps == ps;
    }
  }

  lemma ScanOfIsOver(score: int -> nat, d0: int)
    requires InRange(d0)
    ensures IsScanOver(ScanOf(score, d0), d0)
    ensures forall p :: p in ScanOf(score, d0) ==> p.score == score(p.ps)
  {
    ScanShape(score, d0, SCAN_LENGTH);
    var scan := ScanOf(score, d0);
    forall i | 0 <= i < |scan|
      ensures scan[i].ps == PointPosition(d0, i) && InRange(scan[i].ps) && scan[i].score == score(scan[i].ps)
    {
      assert IsScanPoint(score, d0, scan[i], i);
    }
  }

  lemma ScanBeatsInNumbers(score: int -> nat, d0: int)
    requires InRange(d0)
    ensures ScanBeats(score, d0) <==> exists ps :: OnScan(d0, ps) && 100 * score(ps) > 108 * score(d0)
  {
    var scan := ScanOf(score, d0);
    ScanOfIsOver(score, d0);
    ScanPositions(scan, d0);
    assert OnScan(d0, d0);
    var best := scan[Best(scan)];
    assert best in scan && OnScan(d0, best.ps);
    forall ps | OnScan(d0, ps) ensures score(ps) <= best.score {
      var i :| 0 <= i < |scan| && scan[i].ps == ps;
      assert scan[i] in scan;
    }
  }

  /** Noise-free, which of the outcomes occurs: too few counts below 50, centred if neither neighbour
      600 ps away, cut off at the ends of the range, has more than 108% of the counts at the start, and
      otherwise a move iff some position of the scan has. */
  lemma DecisionInNumbers(score: int -> nat, d0: int, recentre: bool, outcome: Outcome)
    requires 0 <= d0 <= 13280 && AsPromised(score, d0, recentre, outcome)
    ensures var base := score(d0);
            var below, above := score(if d0 < 600 then 0 else d0 - 600), score(if d0 > 12680 then 13280 else d0 + 600);
            var better := 100 * below > 108 * base || 100 * above > 108 * base;
            var found := exists ps :: OnScan(d0, ps) && 100 * score(ps) > 108 * base;
            && (outcome.TooFewCounts? <==> base < 50)
            && (outcome.Centred? <==> base >= 50 && !better)
            && (outcome.Edge? <==> base >= 50 && better && !recentre)
            && (outcome.Moved? <==> base >= 50 && better && recentre && found)
            && (outcome.NoBetter? <==> base >= 50 && better && recentre && !found)
  {
    ScanBeatsInNumbers(score, d0);
  }

  /** Entries lo to hi are the flat top of a scan: around one of the best entries, all with at least 95%
      of its counts, and cut off on both sides by less or by the end of the scan. */
  predicate IsFlatTop(scan: seq<Point>, lo: nat, best: nat, hi: nat) {
    && lo <= best <= hi < |scan|
    && (forall i :: 0 <= i < |scan| ==> scan[i].score <= scan[best].score)
    && (forall i :: lo <= i <= hi ==> 100 * scan[i].score >= 95 * scan[best].score)
    && (lo > 0 ==> 100 * scan[lo - 1].score < 95 * scan[best].score)
    && (hi < |scan| - 1 ==> 100 * scan[hi + 1].score < 95 * scan[best].score)
  }

  /** to is the middle of the flat top, rounded down, and the width counts one step more. */
  predicate IsMiddle(scan: seq<Point>, lo: nat, best: nat, hi: nat, to: int, width: int) {
    && IsFlatTop(scan, lo, best, hi)
    && to == (scan[lo].ps + scan[hi].ps) / 2 && width == scan[hi].ps - scan[lo].ps + 100
  }

  /** A centre is that, and if the best beats the start, it does so by 8%, and every entry of the flat
      top by 2.6%. */
  lemma CentreInNumbers(scan: seq<Point>, to: int, width: int, base: nat)
    requires IsCentre(scan, to, width) && scan != [] && Beats(scan[Best(scan)].score, base)
    ensures exists lo: nat, best: nat, hi: nat ::
      && IsMiddle(scan, lo, best, hi, to, width) && 100 * scan[best].score > 108 * base
      && forall i :: lo <= i <= hi ==> 1000 * scan[i].score > 1026 * base
  {
    var lo: nat, hi: nat :| IsPlateau(scan, lo, hi)
      && to == (scan[lo].ps + scan[hi].ps) / 2 && width == scan[hi].ps - scan[lo].ps + GATE_SCAN_STEP_PS;
    var best := Best(scan);
    forall i | lo <= i <= hi
      ensures 100 * scan[i].score >= 95 * scan[best].score
    {
      assert Near(scan, i);
    }
    assert IsMiddle(scan, lo, best, hi, to, width);
  }

  lemma TruncatedTo250(s: string)
    ensures Truncated(s) <= s && |Truncated(s)| == if |s| < 250 then |s| else 250
  {
  }

  // ---- Bob's reply ----

  function Reply(outcome: Outcome): string {
    match outcome
    case TooFewCounts(click0, click1) =>
      "skipped: too few counts (" + IntToText(click0) + "+" + IntToText(click1) + ") - laser/detector down?"
    case Centred(at, base, below, above) =>
      "ok: gate centred at " + IntToText(at) + " ps (clicks " + IntToText(base) + "; -600:" + IntToText(below)
      + " +600:" + IntToText(above) + ")"
    case Edge(at, base, neighbour) =>
      "EDGE at " + IntToText(at) + " ps: clicks " + IntToText(base) + " but neighbour " + IntToText(neighbour)
      + " (recentre disabled)"
    case NoBetter(at) =>
      "ok: no better gate within +-800 ps of " + IntToText(at) + " (kept " + IntToText(at) + ")"
    case Moved(from, to, width, base, final) =>
      MovedText(IntToText(from), MovedRest(to, width, base, final))
    case Failed(message) => "fail: gate check errored (" + message + ")"
  }

  function MovedRest(to: int, width: int, base: nat, final: nat): string {
    "-> " + IntToText(to) + " ps (plateau " + IntToText(width) + " ps wide, clicks " + IntToText(base)
    + " -> " + IntToText(final) + ")"
  }

  const REPLY_LIMIT: nat := 250

  /** `msg[:250]`. */
  function Truncated(s: string): string {
    if |s| <= REPLY_LIMIT then s else s[..REPLY_LIMIT]
  }

  /** `m.startswith('MOVED')`. */
  predicate SaysMoved(m: string) {
    "MOVED" <= m
  }

  /** `int(m.split()[2])`; None stands for both exceptions. */
  function OldPosition(m: string): Option<int> {
    if |Words(m)| > 2 then ParseInt(Words(m)[2]) else None
  }

  lemma OnlyMovesSayMoved(outcome: Outcome)
    ensures SaysMoved(Truncated(Reply(outcome))) <==> outcome.Moved?
  {
    var s := Reply(outcome);
    hide IntToText, MovedRest;
    assert |s| >= 5;
    if outcome.Moved? {
      assert s[..5] == "MOVED" && Truncated(s)[..5] == "MOVED";
    } else {
      assert s[0] != 'M' && Truncated(s)[0] != 'M';
    }
  }

  lemma ShortText(n: int)
    requires InRange(n)
    ensures |IntToText(n)| <= 5
  {
    assert |NatToText(n / 10 / 10 / 10 / 10)| == 1;
    assert |NatToText(n / 10 / 10 / 10)| <= 2;
    assert |NatToText(n / 10 / 10)| <= 3;
    assert |NatToText(n / 10)| <= 4;
  }

  function MovedText(from: string, rest: string): string {
    "MOVED" + " " + ("gate" + " " + (from + " " + rest))
  }

  lemma TruncatedMoved(from: string, rest: string) returns (cut: string)
    requires |from| <= 5
    ensures Truncated(MovedText(from, rest)) == MovedText(from, cut)
  {
    var head := "MOVED" + " " + "gate" + " " + from + " ";
    assert MovedText(from, rest) == head + rest;
    cut := if |head| + |rest| <= REPLY_LIMIT then rest else rest[..REPLY_LIMIT - |head|];
    assert MovedText(from, cut) == head + cut;
  }

  lemma WordsOfMoved(from: string, rest: string)
    requires from != [] && NoSpace(from)
    ensures Words(MovedText(from, rest)) == ["MOVED"] + (["gate"] + ([from] + Words(rest)))
  {
    hide Words;
    WordsSplitFirst("MOVED", "gate" + " " + (from + " " + rest));
    WordsSplitFirst("gate", from + " " + rest);
    WordsSplitFirst(from, rest);
  }

  /** Alice reads back exactly the old position, however long the rest of the reply is. */
  lemma OldPositionComesBack(outcome: Outcome)
    requires outcome.Moved? && InRange(outcome.from)
    ensures OldPosition(Truncated(Reply(outcome))) == Some(outcome.from)
  {
    var from := IntToText(outcome.from);
    ShortText(outcome.from);
    IntTextHasNoSpace(outcome.from);
    IntRoundTrip(outcome.from);
    var cut := TruncatedMoved(from, MovedRest(outcome.to, outcome.width, outcome.base, outcome.final));
    WordsOfMoved(from, cut);
  }

  // ---- both machines ----

  datatype Report =
    | Relayed(reply: string)
    | Unparsed(reply: string)
    | NoRounds(reply: string)
    | Reverted(to: int)
    | Confirmed(reply: string)

  /** after > before * (1 + 0.15). */
  predicate Regressed(before: real, after: real) {
    after > before * 1.15
  }

  lemma RegressedByFifteenPercent(before: real, after: real)
    ensures Regressed(before, after) <==> 100.0 * after > 115.0 * before
  {
  }

  /** What that means for error rates: one that fell or stayed the same is never undone, one that
      doubled from above zero always is, one that appeared from zero always is, and a still higher rate
      after the move never saves it, nor does a lower one before. */
  lemma OnlyRegressionsAreUndone(before: real, after: real)
    requires before >= 0.0
    ensures after <= before ==> !Regressed(before, after)
    ensures after >= 2.0 * before && after > 0.0 ==> Regressed(before, after)
    ensures forall worse :: worse >= after && Regressed(before, after) ==> Regressed(before, worse)
    ensures forall better :: better <= before && Regressed(before, after) ==> Regressed(better, after)
  {
  }

  /** Alice's `check_gate_edge` with Bob's two handlers; `before` and `after` are the measured QBERs.
      Unless Bob reports a failure, the gate ends where the report says, the stages as far off the
      position file as before, not at all if it told the truth. `broken` is what the last move, back to
      the start after a failure or a regression, found. */
  method CheckGateEdge(gate: Gate, before: Option<real>, after: Option<real>, ghost score: int -> nat)
    returns (report: Report, ghost outcome: Outcome, ghost broken: Setting)
    requires gate.ttl.Valid()
    modifies gate, gate.ttl.device, gate.ttl.file
    ensures gate.ttl.Valid() && (report.Reverted? || outcome.Failed? ==> gate.moveCount > 0)
    ensures report.Reverted? <==>
      outcome.Moved? && before.Some? && after.Some? && 100.0 * after.value > 115.0 * before.value
    ensures report.Reverted? ==> report.to == Clamp(old(gate.delay))
    ensures report.Reverted? && gate.mover(gate.moveCount - 1).None? ==>
      gate.Stands(Clamp(old(gate.delay))) && gate.Off() == old(gate.Off())
    ensures !outcome.Failed? && !outcome.Moved? ==>
      gate.Stands(Clamp(old(gate.delay))) && gate.Off() == old(gate.Off())
    ensures !report.Reverted? && outcome.Moved? ==> gate.Stands(outcome.to) && gate.Off() == old(gate.Off())
    ensures outcome.Failed? ==> LeftBy(old(gate.Off()), broken)
    ensures report.Reverted? ==> Displacement(broken) == old(gate.Off())
    ensures report.Reverted? || outcome.Failed? ==>
      gate.ttl.State() == Attempted(broken, Clamp(old(gate.delay)), PointOf(gate.mover(gate.moveCount - 1)))
    ensures outcome.Failed? && gate.mover(gate.moveCount - 1).None? ==>
      (gate.TrulyAt(Clamp(old(gate.delay))) <==> Honest(broken)) && gate.Off() == Displacement(broken)
    ensures !report.Unparsed? && (!report.Reverted? ==> report.reply == Truncated(Reply(outcome)))
    ensures gate.NoiseFree(score) && old(gate.Off()).Some? ==>
      AsPromised(score, Clamp(old(gate.delay)), true, outcome)
  {
    hide Reply, Truncated, SaysMoved, OldPosition, AsPromised, Regressed, Placed, Accepted, LeftBy;
    hide Displacement, Recorded, Attempted, ShortLines;
    ghost var scan;
    var result;
    result, broken, scan := gate.EdgeCheck(true, score);
    outcome := result;
    var m := Truncated(Reply(result));
    OnlyMovesSayMoved(result);
    if !SaysMoved(m) || before.None? {
      return Relayed(m), outcome, broken;
    }
    OldPositionComesBack(result);
    var oldPosition := OldPosition(m);
    if oldPosition.None? {
      return Unparsed(m), outcome, broken;
    }
    if after.None? {
      return NoRounds(m), outcome, broken;
    }
    RegressedByFifteenPercent(before.value, after.value);
    if Regressed(before.value, after.value) {
      broken := gate.ttl.State();
      var r := gate.Apply(oldPosition.value);
      return Reverted(oldPosition.value), outcome, broken;
    }
    return Confirmed(m), outcome, broken;
  }
}
