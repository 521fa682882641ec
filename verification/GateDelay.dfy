/** The detector gate: remote/ctl_bob.py:188-230, 1033-1037 and the delay registers of
    remote/lib/fpga.py:729-763. The delay line cannot be told a position, only a signed step, so
    the program keeps the positions it believes in a text file that it overwrites in place. */
module GateDelay {
  import opened Bytes
  import opened Maybe
  import opened Text

  const FINE_MAX: nat := 404
  const COARSE_STEP: nat := 1212
  const DUTY: nat := 2

  // ---- the arithmetic ----

  /** round(delay / 3.383): a tie would need an even number to equal an odd one. */
  function Taps(delay: int): int {
    (2000 * delay + 3383) / 6766
  }

  function Coarse(delay: int): int {
    Taps(delay) / COARSE_STEP
  }

  function Fine0(delay: int): nat {
    Taps(delay) % FINE_MAX
  }

  function Fine1(delay: int): nat {
    if Taps(delay) % COARSE_STEP >= FINE_MAX then FINE_MAX else 0
  }

  function Fine2(delay: int): nat {
    if Taps(delay) % COARSE_STEP >= 2 * FINE_MAX then FINE_MAX else 0
  }

  /** The four settings add up to the nearest tap, so the delay is met within half a tap
      (2 * |3383 taps - 1000 ps| <= 3383, in units of a thousandth of a picosecond). The second and third
      stage are off or at 404, the third only with the second, which leaves no other choice. */
  lemma SettingsMeetTheDelay(delay: int)
    ensures Fine0(delay) < 404 && Fine1(delay) in {0, 404} && Fine2(delay) in {0, if Fine1(delay) > 0 then 404 else 0}
    ensures Coarse(delay) * 1212 + Fine0(delay) + Fine1(delay) + Fine2(delay) == Taps(delay)
    ensures Coarse(delay) * COARSE_STEP + Fine0(delay) + Fine1(delay) + Fine2(delay) == Taps(delay)
    ensures -3383 <= 2 * (3383 * Taps(delay) - 1000 * delay) <= 3383
    ensures Coarse(delay) >= 0 <==> Taps(delay) >= 0
    ensures Fine0(delay) < FINE_MAX && Fine1(delay) <= FINE_MAX && Fine2(delay) <= FINE_MAX
  {
    hide Taps;
    ThirdsOfACoarseStep(Taps(delay));
    NearestTap(delay);
  }

  lemma SettingsAreUnique(delay: int, coarse: int, fine0: nat, fine1: nat, fine2: nat)
    requires fine0 < 404 && fine1 in {0, 404} && fine2 in {0, if fine1 > 0 then 404 else 0}
    requires coarse * 1212 + fine0 + fine1 + fine2 == Taps(delay)
    ensures coarse == Coarse(delay) && fine0 == Fine0(delay) && fine1 == Fine1(delay) && fine2 == Fine2(delay)
  {
    hide Taps;
    RemainderIsUnique(Taps(delay), 1212, coarse, fine0 + fine1 + fine2);
    RemainderIsUnique(Taps(delay), 404, 3 * coarse + fine1 / 404 + fine2 / 404, fine0);
  }

  lemma ThirdsOfACoarseStep(taps: int)
    ensures taps % FINE_MAX == taps % COARSE_STEP % FINE_MAX
  {
    var m := taps % COARSE_STEP;
    var q := m / FINE_MAX;
    RemainderIsUnique(taps, FINE_MAX, 3 * (taps / COARSE_STEP) + q, m % FINE_MAX);
  }

  lemma NearestTap(delay: int)
    ensures -3383 <= 2 * (3383 * Taps(delay) - 1000 * delay) <= 3383
  {
  }

  // ---- the registers ----

  datatype MasterWord = MasterWord(duty: nat, coarse: nat, step: nat, direction: nat)
  datatype SlaveWord = SlaveWord(step1: nat, direction1: nat, step2: nat, direction2: nat)

  /** `calculate_delay`: duty<<19 | tune<<15 | (fine*16)<<1 | inc. */
  function PackMaster(w: MasterWord): nat {
    BitOr(BitOr(BitOr(Scaled(w.duty, 19), Scaled(w.coarse, 15)), Scaled(w.step * 16, 1)), w.direction)
  }

  function PackSlaves(w: SlaveWord): nat {
    BitOr(BitOr(BitOr(Scaled(w.step2 * 16, 17), Scaled(w.direction2, 16)), Scaled(w.step1 * 16, 1)),
      w.direction1)
  }

  /** What the device reads in the word: bit 0, bits 1-14, bits 15-18 and the rest. */
  function UnpackMaster(word: nat): MasterWord {
    MasterWord(Shift(word, 19), Low(Shift(word, 15), 4), Low(Shift(word, 1), 14) / 16, Low(word, 1))
  }

  function UnpackSlaves(word: nat): SlaveWord {
    SlaveWord(Low(Shift(word, 1), 15) / 16, Low(word, 1),
      Low(Shift(word, 17), 15) / 16, Low(Shift(word, 16), 1))
  }

  const WORD_RANGE: nat := 0x1_0000_0000

  lemma {:induction false} BitOrSplits(a: nat, b: nat, k: nat)
    ensures Shift(BitOr(a, b), k) == BitOr(Shift(a, k), Shift(b, k))
    ensures Low(BitOr(a, b), k) == BitOr(Low(a, k), Low(b, k))
  {
    assert BitOr(0, 0) == 0;
    hide BitOr;
    if k == 0 {
    } else {
      BitOrSplits(a / 2, b / 2, k - 1);
      BitOrHalves(a, b);
      BitOrHalves(Low(a, k), Low(b, k));
      assert Low(a, k) / 2 == Low(a / 2, k - 1) && Low(b, k) / 2 == Low(b / 2, k - 1);
    }
  }

  lemma BitOrHalves(a: nat, b: nat)
    ensures BitOr(a, b) / 2 == BitOr(a / 2, b / 2)
    ensures BitOr(a, b) % 2 == (if a % 2 == 1 || b % 2 == 1 then 1 else 0)
  {
  }

  lemma {:induction false} ShiftTwice(n: nat, j: nat, k: nat)
    ensures Shift(Shift(n, j), k) == Shift(n, j + k)
  {
    if j == 0 {
    } else {
      ShiftTwice(n / 2, j - 1, k);
    }
  }

  lemma {:induction false} ScaledTwice(n: nat, j: nat, k: nat)
    ensures Scaled(Scaled(n, j), k) == Scaled(n, j + k)
  {
    if k == 0 {
    } else {
      ScaledTwice(n, j, k - 1);
      assert j + k - 1 == j + (k - 1);
    }
  }

  /** Or-ing a short field and then a direction bit under a shifted one only adds them up. */
  lemma FieldsAddUp(high: nat, mid: nat, bit: nat, k: nat)
    requires k >= 1 && 2 * mid < Pow2(k) && bit < 2
    ensures BitOr(BitOr(Scaled(high, k), Scaled(mid, 1)), bit) == Scaled(high, k) + 2 * mid + bit
  {
    assert Scaled(mid, 1) == 2 * mid by { assert Scaled(mid, 0) == mid; }
    BitOrDisjoint(high, 2 * mid, k);
    var n := Scaled(high, k - 1) + mid;
    assert Scaled(n, 1) == 2 * n by { assert Scaled(n, 0) == n; }
    assert Pow2(1) == 2 by { assert Pow2(0) == 1; }
    BitOrDisjoint(n, bit, 1);
  }

  lemma FieldsComeApart(high: nat, mid: nat, bit: nat, k: nat)
    requires k >= 1 && 2 * mid < Pow2(k) && bit < 2
    ensures var word := Scaled(high, k) + 2 * mid + bit;
            Shift(word, k) == high && Low(Shift(word, 1), k - 1) == mid && Low(word, 1) == bit
  {
    var word := Scaled(high, k) + 2 * mid + bit;
    assert 2 * mid + bit < Pow2(k) by { assert Pow2(k) == 2 * Pow2(k - 1); }
    ShiftAndLowAreUnique(high, 2 * mid + bit, k);
    ShiftAndLowAreUnique(high, mid, k - 1);
    assert word / 2 == mid + Scaled(high, k - 1) && word % 2 == bit;
    assert Shift(word, 1) == Shift(word / 2, 0) && Low(word, 1) == word % 2 + 2 * Low(word / 2, 0);
  }

  lemma Powers()
    ensures Pow2(14) == 16384 && Pow2(15) == 32768 && Pow2(16) == 65536
  {
    assert Pow2(7) == 128;
    Pow2Adds(7, 7);
  }

  /** The fields of the word are read back exactly, except that a coarse setting of sixteen or more
      spills into the duty field. */
  lemma MasterWordDecodes(w: MasterWord)
    requires w.step < 1024 && w.direction < 2
    ensures UnpackMaster(PackMaster(w))
         == MasterWord(BitOr(w.duty, Shift(w.coarse, 4)), Low(w.coarse, 4), w.step, w.direction)
  {
    var word, high := MasterWordSum(w);
    hide BitOr, Scaled, Shift, Low, PackMaster, Pow2;
    FieldsComeApart(high, w.step * 16, w.direction, 15);
    ShiftTwice(word, 15, 4);
  }

  lemma MasterWordSum(w: MasterWord) returns (word: nat, high: nat)
    requires w.step < 1024 && w.direction < 2
    ensures word == PackMaster(w) == Scaled(high, 15) + 2 * (w.step * 16) + w.direction
    ensures high == BitOr(Scaled(w.duty, 4), w.coarse)
    ensures Shift(high, 4) == BitOr(w.duty, Shift(w.coarse, 4)) && Low(high, 4) == Low(w.coarse, 4)
    ensures Pow2(15) == 32768
  {
    word := PackMaster(w);
    high := MasterHigh(w.duty, w.coarse);
    FieldsAddUp(high, w.step * 16, w.direction, 15);
    HighFields(w.duty, w.coarse, high);
  }

  lemma HighFields(duty: nat, coarse: nat, high: nat)
    requires high == BitOr(Scaled(duty, 4), coarse)
    ensures Shift(high, 4) == BitOr(duty, Shift(coarse, 4)) && Low(high, 4) == Low(coarse, 4)
  {
    BitOrSplits(Scaled(duty, 4), coarse, 4);
    assert Pow2(4) == 16;
    ShiftAndLowAreUnique(duty, 0, 4);
  }

  lemma ScaledIsMultiple(n: nat, k: nat, p: nat)
    requires p == Pow2(k)
    ensures Scaled(n, k) == p * n
  {
    ScaledIsProduct(n, k);
  }

  lemma MasterHigh(duty: nat, coarse: nat) returns (high: nat)
    ensures high == BitOr(Scaled(duty, 4), coarse)
    ensures BitOr(Scaled(duty, 19), Scaled(coarse, 15)) == Scaled(high, 15)
    ensures Pow2(15) == 32768
  {
    high := BitOr(Scaled(duty, 4), coarse);
    ScaledTwice(duty, 4, 15);
    BitOrScaled(Scaled(duty, 4), coarse, 15);
    Powers();
  }

  /** With the program's duty the word fits the 32-bit register iff the coarse setting does. */
  lemma MasterWordFits(coarse: nat, step: nat, direction: nat)
    requires step < 1024 && direction < 2
    ensures PackMaster(MasterWord(DUTY, coarse, step, direction)) < WORD_RANGE <==> coarse < 0x2_0000
  {
    var word, high := MasterWordSum(MasterWord(DUTY, coarse, step, direction));
    assert Scaled(DUTY, 4) == 32;
    hide BitOr, Scaled, Shift, Low, PackMaster, Pow2;
    ScaledIsMultiple(high, 15, 32768);
    OrThirtyTwo(coarse);
  }

  /** Or-ing in bit 5 adds 32 unless it is set already. */
  lemma OrThirtyTwo(n: nat)
    ensures BitOr(32, n) == n + (if n / 32 % 2 == 1 then 0 else 32)
  {
    BitOrDoubles(16, n);
    BitOrDoubles(8, n / 2);
    BitOrDoubles(4, n / 2 / 2);
    BitOrDoubles(2, n / 2 / 2 / 2);
    BitOrDoubles(1, n / 2 / 2 / 2 / 2);
    assert BitOr(1, n / 32) == 1 + 2 * (n / 32 / 2);
    hide BitOr;
    assert n / 2 / 2 / 2 / 2 / 2 == n / 32;
  }

  lemma BitOrDoubles(a: nat, n: nat)
    ensures BitOr(2 * a, n) == n % 2 + 2 * BitOr(a, n / 2)
  {
  }

  lemma SlaveWordDecodes(w: SlaveWord)
    requires w.step1 < 2048 && w.direction1 < 2 && w.step2 < 2048 && w.direction2 < 2
    ensures PackSlaves(w) < WORD_RANGE && UnpackSlaves(PackSlaves(w)) == w
  {
    var high := 2 * (w.step2 * 16) + w.direction2;
    var word := SlaveWordSum(w, high);
    WordRange(high, w.step1 * 16, w.direction1);
    LowSlaveFields(word, high, w.step1 * 16, w.direction1);
    HighSlaveFields(word, high, w.step2 * 16, w.direction2);
    hide BitOr, Scaled, Shift, Low, PackSlaves, Pow2;
  }

  lemma LowSlaveFields(word: nat, high: nat, mid: nat, bit: nat)
    requires mid < 32768 && bit < 2 && word == Scaled(high, 16) + 2 * mid + bit
    ensures Low(Shift(word, 1), 15) == mid && Low(word, 1) == bit && Shift(word, 16) == high
  {
    Powers();
    FieldsComeApart(high, mid, bit, 16);
  }

  lemma HighSlaveFields(word: nat, high: nat, mid: nat, bit: nat)
    requires mid < 32768 && bit < 2 && Shift(word, 16) == high == 2 * mid + bit
    ensures Low(Shift(word, 17), 15) == mid && Low(Shift(word, 16), 1) == bit
  {
    Powers();
    ShiftTwice(word, 16, 1);
    PairComesApart(mid, bit, 16);
  }

  lemma PairComesApart(mid: nat, bit: nat, k: nat)
    requires k >= 1 && 2 * mid < Pow2(k) && bit < 2
    ensures Low(Shift(2 * mid + bit, 1), k - 1) == mid && Low(2 * mid + bit, 1) == bit
  {
    FieldsComeApart(0, mid, bit, k);
    ScaledIsProduct(0, k);
  }

  lemma WordRange(high: nat, mid: nat, bit: nat)
    requires high < 65536 && mid < 32768 && bit < 2
    ensures Scaled(high, 16) + 2 * mid + bit < WORD_RANGE
  {
    Powers();
    ScaledIsMultiple(high, 16, 65536);
  }

  lemma SlaveWordSum(w: SlaveWord, high: nat) returns (word: nat)
    requires w.step1 < 2048 && w.direction1 < 2 && w.step2 < 2048 && w.direction2 < 2
    requires high == 2 * (w.step2 * 16) + w.direction2
    ensures word == PackSlaves(w) == Scaled(high, 16) + 2 * (w.step1 * 16) + w.direction1
    ensures Pow2(16) == 65536
  {
    word := PackSlaves(w);
    Powers();
    hide BitOr, Scaled, Pow2;
    ScaledTwice(w.step2 * 16, 1, 16);
    BitOrScaled(Scaled(w.step2 * 16, 1), w.direction2, 16);
    PairAddsUp(w.step2 * 16, w.direction2);
    FieldsAddUp(high, w.step1 * 16, w.direction1, 16);
  }

  lemma PairAddsUp(mid: nat, bit: nat)
    requires bit < 2
    ensures BitOr(Scaled(mid, 1), bit) == 2 * mid + bit
  {
    assert Scaled(mid, 1) == 2 * mid by { assert Scaled(mid, 0) == mid; }
    assert Pow2(1) == 2 by { assert Pow2(0) == 1; }
    BitOrDisjoint(mid, bit, 1);
  }

  // ---- delayf.txt ----

  /** Writing over the file from `at` on; what lies beyond stays. */
  function Overwritten(content: string, at: nat, text: string): (result: string)
    requires at <= |content|
    ensures |result| >= at + |text|
  {
    content[..at] + text + (if at + |text| <= |content| then content[at + |text|..] else "")
  }

  lemma OverwrittenInParts(content: string, at: nat, a: string, b: string)
    requires at <= |content|
    ensures Overwritten(Overwritten(content, at, a), at + |a|, b) == Overwritten(content, at, a + b)
  {
    var whole := Overwritten(content, at, a);
    assert whole[..at + |a|] == content[..at] + a;
    if at + |a| + |b| <= |content| {
      assert whole[at + |a| + |b|..] == content[at + |a| + |b|..];
    }
  }

  lemma ThreeWrites(content: string, a: string, b: string, c: string)
    ensures Overwritten(Overwritten(Overwritten(content, 0, a), |a|, b), |a| + |b|, c)
         == Overwritten(content, 0, a + b + c)
  {
    hide Overwritten;
    OverwrittenInParts(content, 0, a, b);
    assert |a + b| == |a| + |b|;
    OverwrittenInParts(content, 0, a + b, c);
  }

  lemma OverwrittenStarts(content: string, text: string)
    ensures text <= Overwritten(content, 0, text)
  {
  }

  function Line(n: int): string {
    IntToText(n) + "\n"
  }

  /** The three lines the file starts with. */
  function Header(pos0: int, pos1: int, pos2: int): string {
    Line(pos0) + Line(pos1) + Line(pos2)
  }

  lemma ReadBack(n: int, rest: string)
    ensures FirstLine(Line(n) + rest) == Line(n) && (Line(n) + rest)[|Line(n)|..] == rest
    ensures ParseInt(Line(n)) == Some(n)
  {
    IntTextHasNoSpace(n);
    IntRoundTrip(n);
    FirstLineOf(IntToText(n), rest);
  }

  /** Three fine-stage positions. */
  datatype Triple = Triple(p0: int, p1: int, p2: int)

  function AfterFirstLine(file: string): string {
    file[|FirstLine(file)|..]
  }

  /** The positions that the first three lines give; None is the ValueError of a line that is none. */
  function Recorded(file: string): Option<Triple> {
    var rest := AfterFirstLine(file);
    var p0, p1, p2 := ParseInt(FirstLine(file)), ParseInt(FirstLine(rest)), ParseInt(FirstLine(AfterFirstLine(rest)));
    if p0.None? || p1.None? || p2.None? then None else Some(Triple(p0.value, p1.value, p2.value))
  }

  lemma NextLine(n: int, rest: string)
    ensures FirstLine(Line(n) + rest) == Line(n) && AfterFirstLine(Line(n) + rest) == rest
    ensures ParseInt(Line(n)) == Some(n)
  {
    ReadBack(n, rest);
  }

  lemma RecordedOfHeader(t: Triple, rest: string)
    ensures Recorded(Header(t.p0, t.p1, t.p2) + rest) == Some(t)
  {
    hide Line, FirstLine, AfterFirstLine, ParseInt;
    var a, b, c := Line(t.p0), Line(t.p1), Line(t.p2);
    NextLine(t.p0, b + (c + rest));
    NextLine(t.p1, c + rest);
    NextLine(t.p2, rest);
    assert a + b + c + rest == a + (b + (c + rest));
  }

  // ---- files the program can have written ----

  /** Digits and newlines, and no more than three digits in a row. */
  predicate ShortLines(file: string) {
    && (forall i :: 0 <= i < |file| ==> IsDigit(file[i]) || file[i] == '\n')
    && (forall i :: 0 <= i < |file| - 3 ==> !FourDigits(file, i))
  }

  predicate FourDigits(file: string, i: nat)
    requires i + 3 < |file|
  {
    IsDigit(file[i]) && IsDigit(file[i + 1]) && IsDigit(file[i + 2]) && IsDigit(file[i + 3])
  }

  lemma ShortLinesSuffix(file: string, n: nat)
    requires ShortLines(file) && n <= |file|
    ensures ShortLines(file[n..])
  {
    forall i | 0 <= i < |file[n..]| - 3
      ensures !FourDigits(file[n..], i)
    {
      assert !FourDigits(file, n + i);
    }
  }

  /** Lines that end stay short whatever short lines follow. */
  lemma ShortLinesConcat(text: string, rest: string)
    requires ShortLines(text) && ShortLines(rest) && (text != [] ==> text[|text| - 1] == '\n')
    ensures ShortLines(text + rest)
  {
    var file := text + rest;
    forall i | 0 <= i < |file| - 3
      ensures !FourDigits(file, i)
    {
      if i + 3 < |text| {
        assert !FourDigits(text, i);
      } else if i >= |text| {
        assert !FourDigits(rest, i - |text|);
      } else {
        assert file[|text| - 1] == '\n';
      }
    }
  }

  lemma ShortLinesOverwritten(file: string, text: string)
    requires ShortLines(file) && ShortLines(text) && (text != [] ==> text[|text| - 1] == '\n')
    ensures ShortLines(Overwritten(file, 0, text))
  {
    var rest := if |text| <= |file| then file[|text|..] else "";
    if |text| <= |file| {
      ShortLinesSuffix(file, |text|);
    }
    ShortLinesConcat(text, rest);
    assert Overwritten(file, 0, text) == text + rest;
  }

  lemma LineIsShort(n: nat)
    requires n < 1000
    ensures ShortLines(Line(n)) && Line(n)[|Line(n)| - 1] == '\n'
  {
    var digits := IntToText(n);
    assert |digits| <= 3 by {
      assert |NatToText(n / 10 / 10)| == 1;
      assert |NatToText(n / 10)| <= 2;
    }
  }

  /** What a short line reads as is below a thousand. */
  lemma ShortLineValue(file: string)
    requires ShortLines(file)
    ensures ParseInt(FirstLine(file)).Some? ==> 0 <= ParseInt(FirstLine(file)).value < 1000
  {
    var line := FirstLine(file);
    FirstLineShape(file);
    var digits := if line != [] && line[|line| - 1] == '\n' then line[..|line| - 1] else line;
    assert line == digits || line == digits + "\n";
    hide FirstLine, ShortLines, ParseInt;
    DigitLineValue(digits, line);
  }

  lemma DigitLineValue(digits: string, line: string)
    requires AllDigits(digits) && |digits| <= 3 && (line == digits || line == digits + "\n")
    ensures ParseInt(line).Some? ==> 0 <= ParseInt(line).value < 1000
  {
    if digits == [] {
      StripOfNewline(line);
    } else {
      hide Strip, WithoutUnderscores, IsDigitPart, DigitsValue;
      DigitsHaveNoSpace(digits);
      StripNoSpace(digits);
      StripNewline(digits);
      PlainDigits(digits);
      ThreeDigits(digits);
      assert IsDigit(digits[0]);
    }
  }

  lemma StripOfNewline(line: string)
    requires line == [] || line == "\n"
    ensures Strip(line) == []
  {
    assert TrimStart([], IsSpace) == [];
    assert line != [] ==> line[1..] == [];
  }

  lemma DigitsHaveNoSpace(s: string)
    requires AllDigits(s)
    ensures NoSpace(s)
  {
    assert forall c :: c in s ==> IsDigit(c) && !IsSpace(c);
  }

  lemma ThreeDigits(s: string)
    requires AllDigits(s) && |s| <= 3
    ensures DigitsValue(s) < 1000
  {
    if s != [] {
      var t := s[..|s| - 1];
      assert IsDigit(s[|s| - 1]);
      if t != [] {
        var u := t[..|t| - 1];
        assert IsDigit(t[|t| - 1]);
        if u != [] {
          assert IsDigit(u[|u| - 1]) && u[..|u| - 1] == [];
        }
      }
    }
  }

  /** A line of a short file: up to three digits and perhaps the newline. */
  lemma FirstLineShape(file: string)
    requires ShortLines(file)
    ensures var line := FirstLine(file);
            var digits := if line != [] && line[|line| - 1] == '\n' then line[..|line| - 1] else line;
            AllDigits(digits) && |digits| <= 3
  {
    hide FirstLine;
    var line := FirstLine(file);
    var digits := if line != [] && line[|line| - 1] == '\n' then line[..|line| - 1] else line;
    NoNewlineBefore(file);
    assert forall i :: 0 <= i < |line| ==> line[i] == file[i];
    forall c | c in digits
      ensures IsDigit(c)
    {
      var i :| 0 <= i < |digits| && digits[i] == c;
      assert file[i] == c && c != '\n';
    }
    if |digits| >= 4 {
      FourInARow(file, digits);
    }
  }

  lemma FourInARow(file: string, digits: string)
    requires digits <= file && AllDigits(digits) && |digits| >= 4
    ensures !ShortLines(file)
  {
    assert digits[0] in digits && digits[1] in digits && digits[2] in digits && digits[3] in digits;
    assert FourDigits(file, 0);
  }

  lemma {:induction false} NoNewlineBefore(file: string)
    ensures var line := FirstLine(file);
            && (forall i :: 0 <= i < |line| - 1 ==> line[i] != '\n')
            && (|line| < |file| ==> line != [] && line[|line| - 1] == '\n')
  {
    if file == [] {
    } else if file[0] == '\n' {
    } else {
      NoNewlineBefore(file[1..]);
    }
  }

  lemma RecordedBelowThousand(file: string)
    requires ShortLines(file)
    ensures match Recorded(file)
            case None => true
            case Some(t) => 0 <= t.p0 < 1000 && 0 <= t.p1 < 1000 && 0 <= t.p2 < 1000
  {
    var rest := AfterFirstLine(file);
    ShortLinesSuffix(file, |FirstLine(file)|);
    ShortLinesSuffix(rest, |FirstLine(rest)|);
    ShortLineValue(file);
    ShortLineValue(rest);
    ShortLineValue(AfterFirstLine(rest));
  }

  /** A text file open for update. */
  class TextFile {
    var content: string
    var at: nat

    ghost predicate Valid()
      reads this
    {
      at <= |content|
    }

    constructor ()
      ensures Valid()
    {
      content, at := "", 0;
    }

    /** Mode 'w'. */
    method OpenEmpty()
      modifies this
      ensures content == "" && at == 0
    {
      content, at := "", 0;
    }

    /** Mode 'r+', and `seek(0)`. */
    method Rewind()
      modifies this`at
      ensures at == 0
    {
      at := 0;
    }

    method ReadLine() returns (line: string)
      requires Valid()
      modifies this`at
      ensures Valid() && line == FirstLine(content[old(at)..]) && at == old(at) + |line|
    {
      line := FirstLine(content[at..]);
      at := at + |line|;
    }

    method Write(text: string)
      requires Valid()
      modifies this
      ensures Valid() && content == Overwritten(old(content), old(at), text) && at == old(at) + |text|
    {
      content := Overwritten(content, at, text);
      at := at + |text|;
    }
  }

  // ---- the device ----

  /** Where the detector gate stands. */
  datatype Gate = Gate(duty: nat, coarse: nat, pos0: int, pos1: int, pos2: int)

  function Moved(pos: int, step: nat, direction: nat): int {
    if direction == 1 then pos + step else pos - step
  }

  class DelayLine {
    var gate: Gate
    var master: nat
    var slaves: nat

    constructor ()
    {
      gate, master, slaves := Gate(0, 0, 0, 0, 0), 0, 0;
    }

    method Reset()
      modifies this
      ensures gate == Gate(0, 0, 0, 0, 0)
    {
      gate := Gate(0, 0, 0, 0, 0);
    }

    /** `write`: a word that does not fit four bytes is an OverflowError and changes nothing. */
    method WriteMaster(word: nat) returns (ok: bool)
      modifies this`master
      ensures ok <==> word < WORD_RANGE
      ensures master == if ok then word else old(master)
    {
      ok := word < WORD_RANGE;
      if ok { master := word; }
    }

    method WriteSlaves(word: nat) returns (ok: bool)
      modifies this`slaves
      ensures ok <==> word < WORD_RANGE
      ensures slaves == if ok then word else old(slaves)
    {
      ok := word < WORD_RANGE;
      if ok { slaves := word; }
    }

    method EnableParams()
      modifies this`gate
      ensures gate == old(gate).(duty := UnpackMaster(master).duty, coarse := UnpackMaster(master).coarse)
    {
      var w := UnpackMaster(master);
      gate := gate.(duty := w.duty, coarse := w.coarse);
    }

    method TriggerMaster()
      modifies this`gate
      ensures var w := UnpackMaster(master);
              gate == old(gate).(pos0 := Moved(old(gate).pos0, w.step, w.direction))
    {
      var w := UnpackMaster(master);
      gate := gate.(pos0 := Moved(gate.pos0, w.step, w.direction));
    }

    method TriggerSlave1()
      modifies this`gate
      ensures var w := UnpackSlaves(slaves);
              gate == old(gate).(pos1 := Moved(old(gate).pos1, w.step1, w.direction1))
    {
      var w := UnpackSlaves(slaves);
      gate := gate.(pos1 := Moved(gate.pos1, w.step1, w.direction1));
    }

    method TriggerSlave2()
      modifies this`gate
      ensures var w := UnpackSlaves(slaves);
              gate == old(gate).(pos2 := Moved(old(gate).pos2, w.step2, w.direction2))
    {
      var w := UnpackSlaves(slaves);
      gate := gate.(pos2 := Moved(gate.pos2, w.step2, w.direction2));
    }
  }

  // ---- programming a delay ----

  /** The delay settings the registers can take at all. */
  predicate Accepted(delay: int) {
    0 <= Coarse(delay) < 0x2_0000
  }

  /** The gate and the file after a delay setting. */
  datatype Setting = Setting(gate: Gate, file: string)

  /** Where the gate must stand for a delay; duty and coarse setting are exact below sixteen. */
  function Placed(delay: int): Gate
    requires Accepted(delay)
  {
    Gate(BitOr(DUTY, Shift(Coarse(delay), 4)), Low(Coarse(delay), 4), Fine0(delay), Fine1(delay), Fine2(delay))
  }

  function FineTriple(delay: int): Triple {
    Triple(Fine0(delay), Fine1(delay), Fine2(delay))
  }

  function Positions(g: Gate): Triple {
    Triple(g.pos0, g.pos1, g.pos2)
  }

  /** How many actions a setting takes once the positions are read and the registers written: enabling
      the parameters, three triggers, three lines. */
  const ACTIONS: nat := 7

  /** The gate after the first n actions, given the recorded positions. */
  function Stepped(g: Gate, delay: int, recorded: Triple, n: nat): Gate
    requires Accepted(delay)
  {
    var c := Coarse(delay);
    Gate(if n >= 1 then BitOr(DUTY, Shift(c, 4)) else g.duty, if n >= 1 then Low(c, 4) else g.coarse,
      if n >= 2 then g.pos0 + Fine0(delay) - recorded.p0 else g.pos0,
      if n >= 3 then g.pos1 + Fine1(delay) - recorded.p1 else g.pos1,
      if n >= 4 then g.pos2 + Fine2(delay) - recorded.p2 else g.pos2)
  }

  /** The lines that the first n actions have written. */
  function LinesWritten(delay: int, n: nat): string {
    if n < 5 then ""
    else if n == 5 then Line(Fine0(delay))
    else if n == 6 then Line(Fine0(delay)) + Line(Fine1(delay))
    else Header(Fine0(delay), Fine1(delay), Fine2(delay))
  }

  /** A delay setting that raises after the first n of its actions, or, for None, does not raise by
      itself. It also raises, before doing anything, if the file cannot be read or the registers cannot
      take the delay. The device and the file are wherever they are. */
  function Attempted(s: Setting, delay: int, fault: Option<nat>): Setting {
    var recorded := Recorded(s.file);
    if recorded.None? || !Accepted(delay) then s
    else
      var n := if fault.None? then ACTIONS else fault.value;
      Setting(Stepped(s.gate, delay, recorded.value, n), Overwritten(s.file, 0, LinesWritten(delay, n)))
  }

  predicate Succeeds(s: Setting, delay: int, fault: Option<nat>) {
    Recorded(s.file).Some? && Accepted(delay) && fault.None?
  }

  /** How far the device is from what the file says; None if the file cannot be read. */
  function Displacement(s: Setting): Option<Triple> {
    match Recorded(s.file)
    case None => None
    case Some(r) => Some(Triple(s.gate.pos0 - r.p0, s.gate.pos1 - r.p1, s.gate.pos2 - r.p2))
  }

  /** The file tells the truth. */
  predicate Honest(s: Setting) {
    Displacement(s) == Some(Triple(0, 0, 0))
  }

  class TtlGate {
    const device: DelayLine
    const file: TextFile

    ghost function State(): Setting
      reads device, file
    {
      Setting(device.gate, file.content)
    }

    ghost predicate Valid()
      reads device, file
    {
      file.Valid() && ShortLines(file.content)
    }

    constructor (device: DelayLine, file: TextFile)
      ensures this.device == device && this.file == file
    {
      this.device, this.file := device, file;
    }

    /** `init_ttl`: whatever the gate and the file were before. */
    method InitTtl(delay: int, fault: Option<nat>) returns (ok: bool)
      modifies device, file
      ensures Valid() && ok == (Accepted(delay) && fault.None?)
      ensures State() == Attempted(FromReset(), delay, fault)
    {
      ResetIsHonest();
      hide Attempted, Recorded, ShortLines, Overwritten, Accepted;
      device.Reset();
      file.OpenEmpty();
      var zeros := "0\n0\n0\n";
      StartOfFile(zeros);
      file.Write(zeros);
      ok := GenGate(delay, fault);
    }

    /** `Gen_Gate`: reads the positions, sends the signed differences, writes the new positions. */
    method GenGate(delay: int, fault: Option<nat>) returns (ok: bool)
      requires Valid()
      modifies device, file
      ensures Valid() && ok == Succeeds(old(State()), delay, fault)
      ensures State() == Attempted(old(State()), delay, fault)
    {
      hide Recorded, Coarse, Fine0, Fine1, Fine2, BitOr, Shift, Low, ShortLines, LinesWritten, Overwritten;
      FineInRange(delay);
      FewLinesWritten(delay, if fault.None? then ACTIONS else fault.value);
      RecordedBelowThousand(file.content);
      var recorded := ReadPositions();
      if recorded.None? {
        return false;
      }
      var df := recorded.value;
      var sent := SendSteps(Coarse(delay), Fine0(delay) - df.p0, Fine1(delay) - df.p1, Fine2(delay) - df.p2, fault);
      if !sent {
        NothingWritten(file.content);
        return false;
      }
      WritePositions(delay, fault);
      return fault.None?;
    }

    method ReadPositions() returns (recorded: Option<Triple>)
      requires Valid()
      modifies file`at
      ensures Valid() && recorded == Recorded(file.content)
    {
      hide FirstLine, ParseInt;
      file.Rewind();
      assert file.content[0..] == file.content;
      var line := file.ReadLine();
      var df0 := ParseInt(line);
      line := file.ReadLine();
      var df1 := ParseInt(line);
      assert file.content[file.at..] == AfterFirstLine(AfterFirstLine(file.content));
      line := file.ReadLine();
      var df2 := ParseInt(line);
      if df0.None? || df1.None? || df2.None? {
        return None;
      }
      return Some(Triple(df0.value, df1.value, df2.value));
    }

    /** The register part: the stages move by their signed steps, one after the other. */
    method SendSteps(coarse: int, fine0: int, fine1: int, fine2: int, fault: Option<nat>) returns (ok: bool)
      requires -1024 < fine0 < 1024 && -1024 < fine1 < 1024 && -1024 < fine2 < 1024
      modifies device
      ensures ok <==> 0 <= coarse < 0x2_0000 && (fault.None? || fault.value >= 4)
      ensures !(0 <= coarse < 0x2_0000) ==> device.gate == old(device.gate)
      ensures 0 <= coarse < 0x2_0000 ==>
        var g, n := old(device.gate), if fault.None? then ACTIONS else fault.value;
        device.gate == Gate(
          if n >= 1 then BitOr(DUTY, Shift(coarse, 4)) else g.duty, if n >= 1 then Low(coarse, 4) else g.coarse,
          if n >= 2 then g.pos0 + fine0 else g.pos0, if n >= 3 then g.pos1 + fine1 else g.pos1,
          if n >= 4 then g.pos2 + fine2 else g.pos2)
    {
      // a negative coarse setting makes a negative word, which fails like one that is too long
      if coarse < 0 {
        return false;
      }
      hide UnpackMaster, UnpackSlaves, BitOr, Shift, Low;
      ok := SendWords(coarse, fine0, fine1, fine2);
      if !ok || fault == Some(0) {
        return false;
      }
      device.EnableParams();
      if fault == Some(1) {
        return false;
      }
      device.TriggerMaster();
      if fault == Some(2) {
        return false;
      }
      device.TriggerSlave1();
      if fault == Some(3) {
        return false;
      }
      device.TriggerSlave2();
    }

    /** The two packed words; the device does not act on them yet. */
    method SendWords(coarse: nat, fine0: int, fine1: int, fine2: int) returns (ok: bool)
      requires -1024 < fine0 < 1024 && -1024 < fine1 < 1024 && -1024 < fine2 < 1024
      modifies device
      ensures ok <==> coarse < 0x2_0000
      ensures device.gate == old(device.gate)
      ensures ok ==>
        var w := MasterWord(BitOr(DUTY, Shift(coarse, 4)), Low(coarse, 4), Abs(fine0), Direction(fine0));
        UnpackMaster(device.master) == w
      ensures ok ==>
        var w := SlaveWord(Abs(fine1), Direction(fine1), Abs(fine2), Direction(fine2));
        UnpackSlaves(device.slaves) == w
    {
      var master := MasterWord(DUTY, coarse, Abs(fine0), Direction(fine0));
      var slaves := SlaveWord(Abs(fine1), Direction(fine1), Abs(fine2), Direction(fine2));
      MasterWordFits(coarse, Abs(fine0), Direction(fine0));
      MasterWordDecodes(master);
      SlaveWordDecodes(slaves);
      hide PackMaster, PackSlaves, UnpackMaster, UnpackSlaves, BitOr, Shift, Low;
      ok := device.WriteMaster(PackMaster(master));
      if ok {
        ok := device.WriteSlaves(PackSlaves(slaves));
      }
    }

    /** The file part. Closing the file on the way out keeps the lines written so far. */
    method WritePositions(delay: int, fault: Option<nat>)
      requires Valid() && (fault.None? || fault.value >= 4)
      modifies file
      ensures Valid()
      ensures var n := if fault.None? then ACTIONS else fault.value;
              file.content == Overwritten(old(file.content), 0, LinesWritten(delay, n))
    {
      hide Line, Overwritten, ShortLines, Fine0, Fine1, Fine2, LinesWritten;
      var line0, line1, line2 := Line(Fine0(delay)), Line(Fine1(delay)), Line(Fine2(delay));
      WhatIsWritten(file.content, delay, line0, line1, line2);
      ghost var n := if fault.None? then ACTIONS else fault.value;
      LinesStayShort(file.content, delay);
      assert ShortLines(Overwritten(file.content, 0, LinesWritten(delay, n)));
      file.Rewind();
      if fault == Some(4) {
        return;
      }
      file.Write(line0);
      if fault == Some(5) {
        return;
      }
      file.Write(line1);
      if fault == Some(6) {
        return;
      }
      file.Write(line2);
    }

    /** A reset and then one delay setting after another, as the commands come in; a setting that
        raises is reported and the next command goes on. Wherever device and file were before, the
        gate ends exactly where the last accepted delay alone would have put it. */
    method RunDelays(first: int, delays: seq<int>)
      modifies device, file
      ensures Valid() && State() == AfterRun([first] + delays)
      ensures match LastAccepted([first] + delays)
              case None => State() == FromReset()
              case Some(delay) => Accepted(delay) && State().gate == Placed(delay)
    {
      hide Attempted, ShortLines;
      var ok := InitTtl(first, None);
      assert AfterRun([first]) == Attempted(AfterRun([]), first, None) by { assert [first][..0] == []; }
      assert [first] + delays[..0] == [first];
      for i := 0 to |delays|
        modifies device, file
        invariant Valid() && State() == AfterRun([first] + delays[..i])
      {
        AfterRunSnoc([first] + delays[..i], delays[i]);
        assert [first] + delays[..i + 1] == [first] + delays[..i] + [delays[i]];
        ok := GenGate(delays[i], None);
      }
      assert delays[..|delays|] == delays;
      RunIsAbsolute([first] + delays);
    }
  }

  lemma StartOfFile(text: string)
    ensures Overwritten("", 0, text) == text
  {
  }

  lemma NothingWritten(file: string)
    ensures Overwritten(file, 0, "") == file
  {
  }

  lemma TwoWrites(content: string, a: string, b: string)
    ensures Overwritten(Overwritten(content, 0, a), |a|, b) == Overwritten(content, 0, a + b)
  {
    OverwrittenInParts(content, 0, a, b);
  }

  lemma WhatIsWritten(file: string, delay: int, a: string, b: string, c: string)
    requires a == Line(Fine0(delay)) && b == Line(Fine1(delay)) && c == Line(Fine2(delay))
    ensures file == Overwritten(file, 0, LinesWritten(delay, 4))
    ensures Overwritten(file, 0, a) == Overwritten(file, 0, LinesWritten(delay, 5))
    ensures Overwritten(Overwritten(file, 0, a), |a|, b) == Overwritten(file, 0, LinesWritten(delay, 6))
    ensures forall n :: n >= 7 ==>
      Overwritten(Overwritten(Overwritten(file, 0, a), |a|, b), |a| + |b|, c)
        == Overwritten(file, 0, LinesWritten(delay, n))
  {
    hide Line, Overwritten, Fine0, Fine1, Fine2;
    NothingWritten(file);
    TwoWrites(file, a, b);
    ThreeWrites(file, a, b, c);
  }

  lemma LinesStayShort(file: string, delay: int)
    requires ShortLines(file)
    ensures forall n: nat :: ShortLines(Overwritten(file, 0, LinesWritten(delay, n)))
  {
    hide ShortLines, Line, Fine0, Fine1, Fine2, Overwritten;
    var a, b, c := Line(Fine0(delay)), Line(Fine1(delay)), Line(Fine2(delay));
    FineInRange(delay);
    LineIsShort(Fine0(delay));
    LineIsShort(Fine1(delay));
    LineIsShort(Fine2(delay));
    ShortLinesConcat(a, b);
    ShortLinesConcat(a + b, c);
    ShortLinesOverwritten(file, a);
    ShortLinesOverwritten(file, a + b);
    ShortLinesOverwritten(file, a + b + c);
    NothingWritten(file);
  }

  lemma FineInRange(delay: int)
    ensures Fine0(delay) <= FINE_MAX && Fine1(delay) <= FINE_MAX && Fine2(delay) <= FINE_MAX
  {
    SettingsMeetTheDelay(delay);
  }

  function Abs(n: int): nat {
    if n < 0 then -n else n
  }

  function Direction(n: int): nat {
    if n > 0 then 1 else 0
  }

  function FromReset(): Setting {
    Setting(Gate(0, 0, 0, 0, 0), "0\n0\n0\n")
  }

  lemma ResetHeader()
    ensures Header(0, 0, 0) == "0\n0\n0\n"
  {
    assert IntToText(0) == "0";
    assert Line(0) == "0\n";
  }

  lemma HeaderIsShort(a: nat, b: nat, c: nat)
    requires a < 1000 && b < 1000 && c < 1000
    ensures ShortLines(Header(a, b, c))
  {
    LineIsShort(a);
    LineIsShort(b);
    LineIsShort(c);
    hide Line, ShortLines;
    ShortLinesConcat(Line(a), Line(b));
    ShortLinesConcat(Line(a) + Line(b), Line(c));
  }

  lemma ResetIsHonest()
    ensures Honest(FromReset()) && ShortLines(FromReset().file)
  {
    hide Header, Recorded, ShortLines;
    ResetHeader();
    HeaderIsShort(0, 0, 0);
    RecordedOfHeader(Triple(0, 0, 0), "");
    var header := Header(0, 0, 0);
    assert header + "" == header;
  }

  // ---- whole runs ----

  /** What a setting that goes through leaves behind: registers and file at the delay, and the stages
      as far from it as they were from the file. */
  lemma SuccessKeepsDisplacement(s: Setting, delay: int)
    requires Succeeds(s, delay, None)
    ensures var t := Attempted(s, delay, None);
            && Recorded(t.file) == Some(FineTriple(delay))
            && Displacement(t) == Displacement(s)
            && t.gate.duty == Placed(delay).duty && t.gate.coarse == Placed(delay).coarse
            && (t.gate == Placed(delay) <==> Honest(s))
  {
    hide Recorded, Header, Overwritten, Fine0, Fine1, Fine2, Coarse, BitOr, Shift, Low;
    RecordedWhenComplete(s.file, delay);
  }

  lemma RecordedWhenComplete(file: string, delay: int)
    ensures Recorded(Overwritten(file, 0, LinesWritten(delay, ACTIONS))) == Some(FineTriple(delay))
  {
    hide Recorded, Line, Overwritten, Fine0, Fine1, Fine2;
    var text := Header(Fine0(delay), Fine1(delay), Fine2(delay));
    var whole := Overwritten(file, 0, text);
    OverwrittenStarts(file, text);
    assert whole == text + whole[|text|..];
    RecordedOfHeader(FineTriple(delay), whole[|text|..]);
  }

  /** No setting ever mends a displacement, or a file that cannot be read. */
  lemma SettingKeepsDisplacement(s: Setting, delay: int)
    ensures Displacement(Attempted(s, delay, None)) == Displacement(s)
  {
    if Succeeds(s, delay, None) {
      SuccessKeepsDisplacement(s, delay);
    }
  }

  function AfterSettings(s: Setting, delays: seq<int>): Setting {
    if delays == [] then s
    else Attempted(AfterSettings(s, delays[..|delays| - 1]), delays[|delays| - 1], None)
  }

  function AfterRun(delays: seq<int>): Setting {
    AfterSettings(FromReset(), delays)
  }

  lemma AfterRunSnoc(delays: seq<int>, delay: int)
    ensures AfterRun(delays + [delay]) == Attempted(AfterRun(delays), delay, None)
  {
    assert (delays + [delay])[..|delays|] == delays;
  }

  /** The last of the delays that did not raise an exception. */
  function LastAccepted(delays: seq<int>): Option<int> {
    if delays == [] then None
    else if Accepted(delays[|delays| - 1]) then Some(delays[|delays| - 1])
    else LastAccepted(delays[..|delays| - 1])
  }

  /** A displacement outlives every run of settings; only a reset ends it. */
  lemma {:induction false} DisplacementStays(s: Setting, delays: seq<int>)
    ensures Displacement(AfterSettings(s, delays)) == Displacement(s)
  {
    hide Displacement, Attempted;
    if delays == [] {
    } else {
      DisplacementStays(s, delays[..|delays| - 1]);
      SettingKeepsDisplacement(AfterSettings(s, delays[..|delays| - 1]), delays[|delays| - 1]);
    }
  }

  /** After any run of settings from a reset the file's first three lines are the positions of the
      device, although the file is never truncated. */
  lemma RunKeepsTheMirror(delays: seq<int>)
    ensures Recorded(AfterRun(delays).file) == Some(Positions(AfterRun(delays).gate))
  {
    ResetIsHonest();
    DisplacementStays(FromReset(), delays);
    hide Recorded, AfterSettings, FromReset;
  }

  /** The gate stands exactly where the last accepted delay alone would have put it: no error builds
      up over the steps. */
  lemma {:induction false} RunIsAbsolute(delays: seq<int>)
    ensures match LastAccepted(delays)
            case None => AfterRun(delays) == FromReset()
            case Some(delay) => Accepted(delay) && AfterRun(delays).gate == Placed(delay)
  {
    hide Recorded, FromReset, Accepted, Placed, Attempted;
    if delays == [] {
    } else {
      var init, last := delays[..|delays| - 1], delays[|delays| - 1];
      RunIsAbsolute(init);
      RunKeepsTheMirror(init);
      if Succeeds(AfterRun(init), last, None) {
        SuccessKeepsDisplacement(AfterRun(init), last);
      } else {
        FailureChangesNothing(AfterRun(init), last);
      }
    }
  }

  lemma FailureChangesNothing(s: Setting, delay: int)
    requires !Succeeds(s, delay, None)
    ensures Attempted(s, delay, None) == s
  {
  }

  // ---- settings that raise half-way ----

  /** Making up for a setting that raised, with one that does not: it brings the gate exactly to the
      delay if the file still told the truth, and otherwise leaves it displaced by exactly as much as
      the file was wrong, or raises again if the file could not be read. */
  lemma RollbackEnds(broken: Setting, delay: int)
    requires Accepted(delay)
    ensures var t := Attempted(broken, delay, None);
            && Displacement(t) == Displacement(broken)
            && (Honest(t) && t.gate == Placed(delay) <==> Honest(broken))
            && (Recorded(broken.file).None? ==> t == broken)
            && (Recorded(broken.file).Some? ==> Recorded(t.file) == Some(FineTriple(delay)))
  {
    hide Recorded, Placed, Accepted, Overwritten;
    SettingKeepsDisplacement(broken, delay);
    if Recorded(broken.file).Some? {
      SuccessKeepsDisplacement(broken, delay);
    }
  }

  /** Which of the actions of a setting may raise without the file telling a lie afterwards. Once the
      first trigger has fired, every stage that has moved must have its line in the file, or must not
      have had to move. A line that is longer or shorter than the one it replaces shifts what follows
      it, so between the lines it is the shifted text that counts. */
  lemma FaultKeepsTruthIff(s: Setting, delay: int, n: nat)
    requires Honest(s) && Accepted(delay)
    ensures var t, p, f := Attempted(s, delay, Some(n)), Positions(s.gate), FineTriple(delay);
            && (n <= 1 ==> Honest(t))
            && (n == 2 ==> (Honest(t) <==> f.p0 == p.p0))
            && (n == 3 ==> (Honest(t) <==> f.p0 == p.p0 && f.p1 == p.p1))
            && (n == 4 ==> (Honest(t) <==> f == p))
            && (n == 5 || n == 6 ==>
                  (Honest(t) <==> Recorded(Overwritten(s.file, 0, LinesWritten(delay, n))) == Some(f)))
            && (n >= 7 ==> Honest(t))
  {
    hide Recorded, Overwritten, Coarse, Fine0, Fine1, Fine2, BitOr, Shift, Low, LinesWritten;
    NothingWritten(s.file);
    FewLinesWritten(delay, n);
    RecordedWhenComplete(s.file, delay);
  }

  /** By how much a setting that raises before its first line leaves the stages off: each stage whose
      trigger has fired by its whole step, on top of what it was off before. */
  lemma FaultDisplacesByTheSteps(s: Setting, delay: int, n: nat)
    requires Recorded(s.file).Some? && Accepted(delay) && n <= 4
    ensures var r, f, e := Recorded(s.file).value, FineTriple(delay), Displacement(s).value;
            Displacement(Attempted(s, delay, Some(n))) == Some(Triple(
              e.p0 + (if n >= 2 then f.p0 - r.p0 else 0),
              e.p1 + (if n >= 3 then f.p1 - r.p1 else 0),
              e.p2 + (if n >= 4 then f.p2 - r.p2 else 0)))
  {
    hide Recorded, Overwritten, Coarse, Fine0, Fine1, Fine2, BitOr, Shift, Low, LinesWritten;
    NothingWritten(s.file);
    FewLinesWritten(delay, n);
  }

  lemma FewLinesWritten(delay: int, n: nat)
    ensures n < 5 ==> LinesWritten(delay, n) == ""
    ensures n >= 7 ==> LinesWritten(delay, n) == LinesWritten(delay, ACTIONS)
  {
  }

  /** Between the lines, if each line is as long as the one it replaces: the stages whose lines are not
      yet written must not have had to move. */
  lemma FaultBetweenEqualLines(s: Setting, delay: int, n: nat)
    requires Honest(s) && Accepted(delay) && (n == 5 || n == 6)
    requires Header(s.gate.pos0, s.gate.pos1, s.gate.pos2) <= s.file
    requires |Line(Fine0(delay))| == |Line(s.gate.pos0)| && |Line(Fine1(delay))| == |Line(s.gate.pos1)|
    ensures var p, f := Positions(s.gate), FineTriple(delay);
            Honest(Attempted(s, delay, Some(n))) <==> f.p2 == p.p2 && (n == 5 ==> f.p1 == p.p1)
  {
    var p, f := Positions(s.gate), FineTriple(delay);
    var q := if n == 5 then Triple(f.p0, p.p1, p.p2) else Triple(f.p0, f.p1, p.p2);
    FaultKeepsTruthIff(s, delay, n);
    LinesInPlace(s.file, p, q, n - 4);
    hide Recorded, Header, Line, Attempted, Fine0, Fine1, Fine2;
  }

  /** Between the lines, if the new first line is one character shorter than the old: its newline is
      left over as an empty line, and the file cannot be read any more, even if no stage had to move. */
  lemma FaultAfterShorterLine(s: Setting, delay: int)
    requires Honest(s) && Accepted(delay) && Header(s.gate.pos0, s.gate.pos1, s.gate.pos2) <= s.file
    requires |Line(Fine0(delay))| + 1 == |Line(s.gate.pos0)|
    ensures Displacement(Attempted(s, delay, Some(5))) == None
  {
    hide Header, Line, Attempted, FirstLine, Fine0, AfterFirstLine, ParseInt, Overwritten;
    var start, text := Line(s.gate.pos0), Line(Fine0(delay));
    LeftOverNewline(s, text);
    NextLine(Fine0(delay), Overwritten(s.file, 0, text)[|text|..]);
    EmptyLineIsNoNumber(Overwritten(s.file, 0, text)[|text|..]);
    FileAfterFirstLine(s, delay);
  }

  lemma LeftOverNewline(s: Setting, text: string)
    requires Header(s.gate.pos0, s.gate.pos1, s.gate.pos2) <= s.file && |text| + 1 == |Line(s.gate.pos0)|
    ensures var file := Overwritten(s.file, 0, text);
            file == text + file[|text|..] && file[|text|..] != [] && file[|text|..][0] == '\n'
  {
    hide Line, Header, Overwritten;
    LineEnds(s.gate.pos0);
    StartsWithLine(s.file, s.gate);
    OverwrittenByLess(s.file, text, Line(s.gate.pos0));
  }

  lemma OverwrittenByLess(file: string, text: string, line: string)
    requires line <= file && |text| + 1 == |line|
    ensures var after := Overwritten(file, 0, text);
            after == text + after[|text|..] && after[|text|..] != [] && after[|text|..][0] == line[|text|]
  {
    var after := Overwritten(file, 0, text);
    assert after == text + file[|text|..];
    assert after[|text|..] == file[|text|..];
  }

  lemma LineEnds(n: int)
    ensures Line(n) != [] && Line(n)[|Line(n)| - 1] == '\n'
  {
  }

  lemma StartsWithLine(file: string, g: Gate)
    requires Header(g.pos0, g.pos1, g.pos2) <= file
    ensures Line(g.pos0) <= file
  {
    hide Line;
    assert Line(g.pos0) <= Header(g.pos0, g.pos1, g.pos2);
  }

  lemma EmptyLineIsNoNumber(rest: string)
    requires rest != [] && rest[0] == '\n'
    ensures ParseInt(FirstLine(rest)) == None
  {
    assert FirstLine(rest) == "\n";
    StripOfNewline("\n");
  }

  lemma FileAfterFirstLine(s: Setting, delay: int)
    requires Honest(s) && Accepted(delay)
    ensures Attempted(s, delay, Some(5)).file == Overwritten(s.file, 0, Line(Fine0(delay)))
  {
  }

  /** Replacing the first line, or the first two, by lines of the same lengths. */
  lemma LinesInPlace(file: string, p: Triple, q: Triple, lines: nat)
    requires Header(p.p0, p.p1, p.p2) <= file && |Line(q.p0)| == |Line(p.p0)| && |Line(q.p1)| == |Line(p.p1)|
    requires q.p2 == p.p2 && (lines == 1 ==> q.p1 == p.p1) && 1 <= lines <= 2
    ensures Recorded(Overwritten(file, 0, if lines == 1 then Line(q.p0) else Line(q.p0) + Line(q.p1))) == Some(q)
  {
    hide Line, Recorded, Overwritten;
    var rest := file[|Header(p.p0, p.p1, p.p2)|..];
    var a, b, c := Line(p.p0), Line(p.p1), Line(p.p2);
    RecordedOfHeader(q, rest);
    if lines == 1 {
      ThreeParts(file, a, b, c, rest, Line(q.p0), b);
      StartReplaced(file, a, b + c + rest, Line(q.p0));
    } else {
      ThreeParts(file, a, b, c, rest, Line(q.p0), Line(q.p1));
      StartReplaced(file, a + b, c + rest, Line(q.p0) + Line(q.p1));
    }
  }

  lemma ThreeParts(file: string, a: string, b: string, c: string, rest: string, x: string, y: string)
    requires a + b + c <= file && rest == file[|a + b + c|..]
    ensures file == a + (b + c + rest) && file == (a + b) + (c + rest)
    ensures x + y + c + rest == x + (y + c + rest) && x + y + c + rest == (x + y) + (c + rest)
  {
    assert file == (a + b + c) + rest;
  }

  lemma StartReplaced(file: string, start: string, rest: string, text: string)
    requires file == start + rest && |text| == |start|
    ensures Overwritten(file, 0, text) == text + rest
  {
  }

  /** The gate's total delay equals the requested number of taps iff the coarse setting is below
      sixteen, and then the pulse keeps its duty. */
  lemma PlacedIsExact(delay: int)
    requires Accepted(delay)
    ensures TotalTaps(Placed(delay)) == Taps(delay) <==> Coarse(delay) < 16
    ensures Coarse(delay) < 16 ==> Placed(delay).duty == DUTY
  {
    SettingsMeetTheDelay(delay);
    LowFour(Coarse(delay));
  }

  lemma LowFour(n: nat)
    ensures Low(n, 4) == n <==> n < 16
    ensures n < 16 ==> Shift(n, 4) == 0
  {
    ShiftAndLow(n, 4);
    assert Pow2(4) == 16;
    ScaledIsProduct(Shift(n, 4), 4);
  }

  function TotalTaps(g: Gate): int {
    g.coarse * COARSE_STEP + g.pos0 + g.pos1 + g.pos2
  }

  /** Every delay the calibration may ask for is met within half a tap. */
  lemma GateRangeIsExact(delay: int)
    requires 0 <= delay <= 13280
    ensures Accepted(delay)
    ensures -3383 <= 2 * (3383 * TotalTaps(Placed(delay)) - 1000 * delay) <= 3383
    ensures Placed(delay).duty == DUTY
  {
    SettingsMeetTheDelay(delay);
    PlacedIsExact(delay);
  }
}
